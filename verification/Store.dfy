/**
 The mail part of the reference store, as a value: folder rows and message rows
 in the order the store holds them, and the operations of the storage seam on
 them. `MemStore` updates the same data in place and is proved against these
 functions.
 */
module Store {
  import opened Wrappers

  type U32 = x: int | 0 <= x < 0x1_0000_0000
  type U64 = x: int | 0 <= x < 0x1_0000_0000_0000_0000

  const U32_MAX: U32 := 0xFFFF_FFFF
  const U64_MAX: U64 := 0xFFFF_FFFF_FFFF_FFFF

  datatype FolderRole = Inbox | Sent | Drafts | Trash | Archive | Junk

  datatype Flag = Seen | Answered | Flagged | Deleted | Draft | Custom(keyword: string)

  datatype NewFolder = NewFolder(
    account: nat, name: string, attributes: seq<string>, role: Option<FolderRole>, delimiter: string,
    uidValidity: U32, highestModseq: U64)

  datatype FolderRow = FolderRow(
    id: nat, account: nat, name: string, attributes: seq<string>, role: Option<FolderRole>, delimiter: string,
    uidValidity: U32, highestModseq: U64)

  datatype Message = Message(id: nat, folder: nat, uid: U32, date: int, flags: seq<Flag>)

  /** One message ready for ingestion; the parsed model is the host's and is not looked at. */
  datatype IngestMessage = IngestMessage(
    folder: nat, uid: U32, date: int, flags: seq<Flag>, rawBlob: Option<string>, rawSize: nat)

  datatype IngestStats = IngestStats(inserted: nat, updated: nat)

  /** `nextId` stands for the supply of fresh UUIDs. */
  datatype Mail = Mail(folders: seq<FolderRow>, messages: seq<Message>, nextId: nat)

  const EmptyMail := Mail([], [], 0)

  // ----- Searching -----

  predicate Keyed(m: Message, folder: nat, uid: U32) {
    m.folder == folder && m.uid == uid
  }

  /** Index of the first message with the given key, or the length when there is none. */
  function FindMessage(ms: seq<Message>, folder: nat, uid: U32): (i: nat)
    ensures i <= |ms|
    ensures i < |ms| ==> Keyed(ms[i], folder, uid)
    ensures forall j :: 0 <= j < i ==> !Keyed(ms[j], folder, uid)
  {
    if ms == [] || Keyed(ms[0], folder, uid) then 0
    else 1 + FindMessage(ms[1..], folder, uid)
  }

  function Lookup(ms: seq<Message>, folder: nat, uid: U32): Option<Message> {
    var i := FindMessage(ms, folder, uid);
    if i < |ms| then Some(ms[i]) else None
  }

  predicate Stored(ms: seq<Message>, folder: nat, uid: U32) {
    Lookup(ms, folder, uid).Some?
  }

  /** Index of the first row with the given id, or the length when there is none. */
  function FindFolder(rows: seq<FolderRow>, id: nat): (i: nat)
    ensures i <= |rows|
    ensures i < |rows| ==> rows[i].id == id
    ensures forall j :: 0 <= j < i ==> rows[j].id != id
  {
    if rows == [] || rows[0].id == id then 0 else 1 + FindFolder(rows[1..], id)
  }

  function RowOf(rows: seq<FolderRow>, id: nat): Option<FolderRow> {
    var i := FindFolder(rows, id);
    if i < |rows| then Some(rows[i]) else None
  }

  /** Index of the first row with the given account and server name. */
  function FindNamed(rows: seq<FolderRow>, account: nat, name: string): (i: nat)
    ensures i <= |rows|
    ensures i < |rows| ==> rows[i].account == account && rows[i].name == name
    ensures forall j :: 0 <= j < i ==> !(rows[j].account == account && rows[j].name == name)
  {
    if rows == [] || (rows[0].account == account && rows[0].name == name) then 0
    else 1 + FindNamed(rows[1..], account, name)
  }

  // ----- Updates -----

  function UpsertFolder(mail: Mail, f: NewFolder): Mail {
    var i := FindNamed(mail.folders, f.account, f.name);
    if i < |mail.folders| then
      var row := mail.folders[i].(attributes := f.attributes, role := f.role, delimiter := f.delimiter);
      mail.(folders := mail.folders[i := row])
    else
      mail.(folders := mail.folders + [FolderRow(mail.nextId, f.account, f.name, f.attributes, f.role, f.delimiter,
                                                 f.uidValidity, f.highestModseq)],
            nextId := mail.nextId + 1)
  }

  function Upsert(mail: Mail, m: IngestMessage): Mail {
    var i := FindMessage(mail.messages, m.folder, m.uid);
    if i < |mail.messages| then
      mail.(messages := mail.messages[i := mail.messages[i].(flags := m.flags, date := m.date)])
    else
      mail.(messages := mail.messages + [Message(mail.nextId, m.folder, m.uid, m.date, m.flags)],
            nextId := mail.nextId + 1)
  }

  /** One transaction: the messages of the batch, in order. */
  function Ingest(mail: Mail, batch: seq<IngestMessage>): Mail {
    if batch == [] then mail
    else Upsert(Ingest(mail, batch[..|batch| - 1]), batch[|batch| - 1])
  }

  function Stats(mail: Mail, batch: seq<IngestMessage>): (s: IngestStats)
    ensures s.inserted + s.updated == |batch|
  {
    if batch == [] then IngestStats(0, 0)
    else
      var s, last := Stats(mail, batch[..|batch| - 1]), batch[|batch| - 1];
      if Stored(Ingest(mail, batch[..|batch| - 1]).messages, last.folder, last.uid) then s.(updated := s.updated + 1)
      else s.(inserted := s.inserted + 1)
  }

  /** The messages that do not belong to `folder`, in order. */
  function Without(ms: seq<Message>, folder: nat): seq<Message> {
    if ms == [] then []
    else
      var rest, last := Without(ms[..|ms| - 1], folder), ms[|ms| - 1];
      if last.folder == folder then rest else rest + [last]
  }

  function Purge(mail: Mail, folder: nat): Mail {
    mail.(messages := Without(mail.messages, folder))
  }

  /**
   Moves the cursors of a folder. The engine passes 0 as UIDVALIDITY to move the
   modseq alone. With `literal` the 0 is written as it is, which is what the
   in-memory store of the test suite does.
   */
  function UpdateCursors(mail: Mail, literal: bool, id: nat, uidValidity: U32, modseq: Option<U64>): Mail {
    var i := FindFolder(mail.folders, id);
    if i == |mail.folders| then mail
    else
      var row := mail.folders[i];
      var v := if uidValidity == 0 && !literal then row.uidValidity else uidValidity;
      mail.(folders := mail.folders[i := row.(uidValidity := v, highestModseq := modseq.GetOr(row.highestModseq))])
  }

  // ----- Queries -----

  /** The messages of `folder`, in order. */
  function OfFolder(ms: seq<Message>, folder: nat): seq<Message> {
    if ms == [] then []
    else
      var rest, last := OfFolder(ms[..|ms| - 1], folder), ms[|ms| - 1];
      if last.folder == folder then rest + [last] else rest
  }

  function MaxUid(ms: seq<Message>, folder: nat): Option<U32> {
    if ms == [] then None
    else
      var m, last := MaxUid(ms[..|ms| - 1], folder), ms[|ms| - 1];
      if last.folder == folder && (m.None? || m.value <= last.uid) then Some(last.uid) else m
  }

  datatype SortField = ByUid | ByDate

  function Key(field: SortField, m: Message): int {
    match field
    case ByUid => m.uid
    case ByDate => m.date
  }

  /** Inserts behind every row whose key is not larger, which keeps the sort stable. */
  function Insert(field: SortField, sorted: seq<Message>, m: Message): seq<Message> {
    if sorted == [] || Key(field, sorted[|sorted| - 1]) <= Key(field, m) then sorted + [m]
    else Insert(field, sorted[..|sorted| - 1], m) + [sorted[|sorted| - 1]]
  }

  function Sort(field: SortField, rows: seq<Message>): seq<Message> {
    if rows == [] then [] else Insert(field, Sort(field, rows[..|rows| - 1]), rows[|rows| - 1])
  }

  function Reverse(rows: seq<Message>): (r: seq<Message>)
    ensures |r| == |rows|
    ensures forall i :: 0 <= i < |rows| ==> r[i] == rows[|rows| - 1 - i]
  {
    if rows == [] then [] else [rows[|rows| - 1]] + Reverse(rows[..|rows| - 1])
  }

  /** The sorted rows of a folder before windowing. */
  function Listing(ms: seq<Message>, folder: nat, field: SortField, descending: bool): seq<Message> {
    var rows := Sort(field, OfFolder(ms, folder));
    if descending then Reverse(rows) else rows
  }

  function Min(a: int, b: int): int {
    if a <= b then a else b
  }

  function Page(rows: seq<Message>, offset: nat, limit: nat): seq<Message> {
    var from := Min(offset, |rows|);
    rows[from..Min(from + limit, |rows|)]
  }

  // ----- What holds in every store -----

  ghost predicate WellFormed(mail: Mail) {
    && (forall i, j :: 0 <= i < j < |mail.messages| ==>
          !Keyed(mail.messages[j], mail.messages[i].folder, mail.messages[i].uid))
    && (forall i, j :: 0 <= i < j < |mail.messages| ==> mail.messages[i].id != mail.messages[j].id)
    && (forall i :: 0 <= i < |mail.messages| ==> mail.messages[i].id < mail.nextId)
    && (forall i, j :: 0 <= i < j < |mail.folders| ==> mail.folders[i].id != mail.folders[j].id)
    && (forall i :: 0 <= i < |mail.folders| ==> mail.folders[i].id < mail.nextId)
  }

  /** Every operation keeps (folder, uid) keys, message ids and folder ids unique. */
  lemma UpdatesKeepWellFormed(mail: Mail, literal: bool, f: NewFolder, batch: seq<IngestMessage>, id: nat, v: U32,
                              q: Option<U64>)
    requires WellFormed(mail)
    ensures WellFormed(UpsertFolder(mail, f))
    ensures WellFormed(Ingest(mail, batch))
    ensures WellFormed(Purge(mail, id))
    ensures WellFormed(UpdateCursors(mail, literal, id, v, q))
  {
    UpsertFolderKeepsWellFormed(mail, f);
    IngestKeepsWellFormed(mail, batch);
    PurgeKeepsWellFormed(mail, id);
    CursorsKeepWellFormed(mail, literal, id, v, q);
  }

  lemma UpsertFolderKeepsWellFormed(mail: Mail, f: NewFolder)
    requires WellFormed(mail)
    ensures WellFormed(UpsertFolder(mail, f))
  {
  }

  lemma PurgeKeepsWellFormed(mail: Mail, id: nat)
    requires WellFormed(mail)
    ensures WellFormed(Purge(mail, id))
  {
    var at := WithoutIsSubsequence(mail.messages, id);
    var ms := Without(mail.messages, id);
    forall i, j | 0 <= i < j < |ms|
      ensures !Keyed(ms[j], ms[i].folder, ms[i].uid) && ms[i].id != ms[j].id
    {
      assert ms[i] == mail.messages[at[i]] && ms[j] == mail.messages[at[j]] && at[i] < at[j];
    }
  }

  lemma CursorsKeepWellFormed(mail: Mail, literal: bool, id: nat, v: U32, q: Option<U64>)
    requires WellFormed(mail)
    ensures WellFormed(UpdateCursors(mail, literal, id, v, q))
  {
  }

  lemma {:induction false} IngestKeepsWellFormed(mail: Mail, batch: seq<IngestMessage>)
    requires WellFormed(mail)
    ensures WellFormed(Ingest(mail, batch))
  {
    if batch != [] {
      IngestKeepsWellFormed(mail, batch[..|batch| - 1]);
    }
  }

  /** Filtering keeps order: the survivors sit at increasing positions of the original. */
  lemma {:induction false} WithoutIsSubsequence(ms: seq<Message>, folder: nat) returns (at: seq<nat>)
    ensures |at| == |Without(ms, folder)|
    ensures forall i :: 0 <= i < |at| ==>
              at[i] < |ms| && Without(ms, folder)[i] == ms[at[i]] && ms[at[i]].folder != folder
    ensures forall i, j :: 0 <= i < j < |at| ==> at[i] < at[j]
    ensures forall k :: 0 <= k < |ms| && ms[k].folder != folder ==> k in at
  {
    if ms == [] {
      at := [];
    } else {
      var init, last := ms[..|ms| - 1], ms[|ms| - 1];
      at := WithoutIsSubsequence(init, folder);
      var rest := Without(init, folder);
      if last.folder != folder {
        assert Without(ms, folder) == rest + [last];
        at := at + [|ms| - 1];
      } else {
        assert Without(ms, folder) == rest;
      }
    }
  }

  /** The same for the messages a folder does have. */
  lemma {:induction false} OfFolderIsSubsequence(ms: seq<Message>, folder: nat) returns (at: seq<nat>)
    ensures |at| == |OfFolder(ms, folder)|
    ensures forall i :: 0 <= i < |at| ==>
              at[i] < |ms| && OfFolder(ms, folder)[i] == ms[at[i]] && ms[at[i]].folder == folder
    ensures forall i, j :: 0 <= i < j < |at| ==> at[i] < at[j]
    ensures forall k :: 0 <= k < |ms| && ms[k].folder == folder ==> k in at
  {
    if ms == [] {
      at := [];
    } else {
      var init, last := ms[..|ms| - 1], ms[|ms| - 1];
      at := OfFolderIsSubsequence(init, folder);
      var rest := OfFolder(init, folder);
      if last.folder == folder {
        assert OfFolder(ms, folder) == rest + [last];
        at := at + [|ms| - 1];
      } else {
        assert OfFolder(ms, folder) == rest;
      }
    }
  }

  // ----- What the updates do, seen through lookups -----

  /** The last message of a batch for a key: the one that decides the stored values. */
  function LastFor(batch: seq<IngestMessage>, folder: nat, uid: U32): (r: Option<IngestMessage>)
    ensures r.Some? ==> r.value in batch && r.value.folder == folder && r.value.uid == uid
    ensures r.None? ==> forall m :: m in batch ==> !(m.folder == folder && m.uid == uid)
  {
    if batch == [] then None
    else
      var last := batch[|batch| - 1];
      if last.folder == folder && last.uid == uid then Some(last) else LastFor(batch[..|batch| - 1], folder, uid)
  }

  lemma UpsertLookup(mail: Mail, m: IngestMessage, folder: nat, uid: U32)
    ensures var before, after := Lookup(mail.messages, folder, uid), Lookup(Upsert(mail, m).messages, folder, uid);
            if m.folder == folder && m.uid == uid then
              && after.Some? && after.value.date == m.date && after.value.flags == m.flags
              && after.value.id == (if before.Some? then before.value.id else mail.nextId)
            else after == before
  {
    var ms, ms' := mail.messages, Upsert(mail, m).messages;
    var i, k := FindMessage(ms, folder, uid), FindMessage(ms, m.folder, m.uid);
    if k < |ms| {
      assert forall j :: 0 <= j < |ms| ==> (Keyed(ms'[j], folder, uid) <==> Keyed(ms[j], folder, uid));
      FoundAt(ms', folder, uid, i);
    } else {
      AppendLookup(ms, ms'[|ms|], folder, uid);
    }
  }

  /** The first index is the only one with nothing of the same key before it. */
  lemma FoundAt(ms: seq<Message>, folder: nat, uid: U32, i: nat)
    requires i <= |ms|
    requires i < |ms| ==> Keyed(ms[i], folder, uid)
    requires forall j :: 0 <= j < i ==> !Keyed(ms[j], folder, uid)
    ensures FindMessage(ms, folder, uid) == i
  {
  }

  /** A batch sets exactly its own keys, each to its last message, and keeps the ids of known rows. */
  lemma {:induction false} IngestLookup(mail: Mail, batch: seq<IngestMessage>, folder: nat, uid: U32)
    ensures var before, after := Lookup(mail.messages, folder, uid), Lookup(Ingest(mail, batch).messages, folder, uid);
            match LastFor(batch, folder, uid)
            case None => after == before
            case Some(m) => after.Some? && after.value.date == m.date && after.value.flags == m.flags
                            && (before.Some? ==> after.value.id == before.value.id)
  {
    if batch != [] {
      IngestLookup(mail, batch[..|batch| - 1], folder, uid);
      UpsertLookup(Ingest(mail, batch[..|batch| - 1]), batch[|batch| - 1], folder, uid);
    }
  }

  lemma {:induction false} IngestKeepsFolders(mail: Mail, batch: seq<IngestMessage>)
    ensures Ingest(mail, batch).folders == mail.folders
    ensures Ingest(mail, batch).nextId >= mail.nextId
  {
    if batch != [] {
      IngestKeepsFolders(mail, batch[..|batch| - 1]);
    }
  }

  lemma {:induction false} PurgeLookup(ms: seq<Message>, purged: nat, folder: nat, uid: U32)
    ensures Lookup(Without(ms, purged), folder, uid) == if folder == purged then None else Lookup(ms, folder, uid)
  {
    if ms != [] {
      var init, last := ms[..|ms| - 1], ms[|ms| - 1];
      PurgeLookup(init, purged, folder, uid);
      AppendLookup(init, last, folder, uid);
      AppendLookup(Without(init, purged), last, folder, uid);
      assert ms == init + [last];
    }
  }

  lemma AppendLookup(ms: seq<Message>, m: Message, folder: nat, uid: U32)
    ensures Lookup(ms + [m], folder, uid) ==
            if Lookup(ms, folder, uid).None? && Keyed(m, folder, uid) then Some(m) else Lookup(ms, folder, uid)
  {
    var i := FindMessage(ms, folder, uid);
    assert forall j :: 0 <= j < |ms| ==> (ms + [m])[j] == ms[j];
    FoundAt(ms + [m], folder, uid, if i == |ms| && !Keyed(m, folder, uid) then |ms| + 1 else i);
  }

  lemma CursorRow(mail: Mail, literal: bool, id: nat, v: U32, q: Option<U64>, other: nat)
    ensures var before, after := RowOf(mail.folders, other),
            RowOf(UpdateCursors(mail, literal, id, v, q).folders, other);
            if other == id && before.Some? then
              after == Some(before.value.(uidValidity := if v == 0 && !literal then before.value.uidValidity else v,
                                          highestModseq := q.GetOr(before.value.highestModseq)))
            else after == before
  {
    var rows, rows' := mail.folders, UpdateCursors(mail, literal, id, v, q).folders;
    assert |rows'| == |rows| && forall j :: 0 <= j < |rows| ==> rows'[j].id == rows[j].id;
  }

  /** Hierarchy sync never moves a cursor: a known row keeps both, a new one starts with those given. */
  lemma UpsertRow(mail: Mail, f: NewFolder, other: nat)
    requires WellFormed(mail)
    ensures var before, after := RowOf(mail.folders, other), RowOf(UpsertFolder(mail, f).folders, other);
            if before.Some? then
              && after.Some? && after.value.name == before.value.name && after.value.account == before.value.account
              && after.value.uidValidity == before.value.uidValidity
              && after.value.highestModseq == before.value.highestModseq
            else after.Some? ==>
              && other == mail.nextId && after.value.name == f.name && after.value.account == f.account
              && after.value.uidValidity == f.uidValidity && after.value.highestModseq == f.highestModseq
  {
    var rows, rows' := mail.folders, UpsertFolder(mail, f).folders;
    assert forall j :: 0 <= j < |rows| ==> rows'[j].id == rows[j].id;
  }

  /** Row `i` is the first one of the account with the name. */
  ghost predicate FirstNamed(rows: seq<FolderRow>, i: nat, account: nat, name: string) {
    && i < |rows| && rows[i].account == account && rows[i].name == name
    && forall j :: 0 <= j < i ==> !(rows[j].account == account && rows[j].name == name)
  }

  /** The row written shows the attributes, role and delimiter given; it is the only one touched. */
  lemma UpsertWrites(mail: Mail, f: NewFolder) returns (i: nat)
    ensures var rows, rows' := mail.folders, UpsertFolder(mail, f).folders;
            && FirstNamed(rows', i, f.account, f.name)
            && rows'[i].attributes == f.attributes && rows'[i].role == f.role && rows'[i].delimiter == f.delimiter
            && i <= |rows| && |rows'| == (if i == |rows| then |rows| + 1 else |rows|)
            && (forall j :: 0 <= j < |rows| && j != i ==> rows'[j] == rows[j])
            && (i < |rows| ==> FirstNamed(rows, i, f.account, f.name) && rows'[i].id == rows[i].id)
            && (i == |rows| ==> rows'[i].id == mail.nextId)
  {
    i := FindNamed(mail.folders, f.account, f.name);
  }

  /** The maximum is stored and nothing above it is; it is absent exactly for an empty folder. */
  lemma {:induction false} MaxUidIsMaximum(ms: seq<Message>, folder: nat)
    ensures MaxUid(ms, folder).Some? ==> Stored(ms, folder, MaxUid(ms, folder).value)
    ensures forall uid: U32 :: Stored(ms, folder, uid) ==> MaxUid(ms, folder).Some? && uid <= MaxUid(ms, folder).value
  {
    if ms != [] {
      var init, last := ms[..|ms| - 1], ms[|ms| - 1];
      MaxUidIsMaximum(init, folder);
      forall uid: U32
        ensures Stored(ms, folder, uid) <==> Stored(init, folder, uid) || Keyed(last, folder, uid)
      {
        AppendLookup(init, last, folder, uid);
        assert ms == init + [last];
      }
    }
  }

  // ----- Listings -----

  ghost predicate Ascending(field: SortField, rows: seq<Message>) {
    forall i, j :: 0 <= i < j < |rows| ==> Key(field, rows[i]) <= Key(field, rows[j])
  }

  lemma {:induction false} InsertIsStable(field: SortField, sorted: seq<Message>, m: Message)
    requires Ascending(field, sorted)
    ensures Ascending(field, Insert(field, sorted, m))
    ensures forall x :: x in Insert(field, sorted, m) ==> x == m || x in sorted
  {
    if sorted != [] && Key(field, sorted[|sorted| - 1]) > Key(field, m) {
      var init, last := sorted[..|sorted| - 1], sorted[|sorted| - 1];
      assert Ascending(field, init);
      InsertIsStable(field, init, m);
      assert sorted == init + [last];
      var r := Insert(field, init, m);
      forall i | 0 <= i < |r|
        ensures Key(field, r[i]) <= Key(field, last)
      {
        assert r[i] in r;
      }
    }
  }

  lemma {:induction false} InsertAddsOne(field: SortField, sorted: seq<Message>, m: Message)
    ensures multiset(Insert(field, sorted, m)) == multiset(sorted) + multiset{m}
  {
    if sorted != [] && Key(field, sorted[|sorted| - 1]) > Key(field, m) {
      InsertAddsOne(field, sorted[..|sorted| - 1], m);
      assert sorted == sorted[..|sorted| - 1] + [sorted[|sorted| - 1]];
    }
  }

  lemma {:induction false} SortSorts(field: SortField, rows: seq<Message>)
    ensures multiset(Sort(field, rows)) == multiset(rows)
    ensures Ascending(field, Sort(field, rows))
  {
    if rows != [] {
      SortSorts(field, rows[..|rows| - 1]);
      InsertIsStable(field, Sort(field, rows[..|rows| - 1]), rows[|rows| - 1]);
      InsertAddsOne(field, Sort(field, rows[..|rows| - 1]), rows[|rows| - 1]);
      assert rows == rows[..|rows| - 1] + [rows[|rows| - 1]];
    }
  }

  function KeyIs(field: SortField, key: int): Message -> Option<Message> {
    (m: Message) => if Key(field, m) == key then Some(m) else None
  }

  /** The rows with one key. */
  function WithKey(field: SortField, key: int, rows: seq<Message>): seq<Message> {
    if rows == [] then []
    else
      var rest, last := WithKey(field, key, rows[..|rows| - 1]), rows[|rows| - 1];
      if Key(field, last) == key then rest + [last] else rest
  }

  lemma {:induction false} WithKeyExactly(field: SortField, key: int, rows: seq<Message>) returns (at: seq<nat>)
    ensures Picks(rows, KeyIs(field, key), WithKey(field, key, rows), at)
  {
    at := [];
    if rows != [] {
      at := WithKeyExactly(field, key, rows[..|rows| - 1]);
      at := PicksLast(rows, KeyIs(field, key), WithKey(field, key, rows[..|rows| - 1]), at);
    }
  }

  lemma WithKeyAppend(field: SortField, key: int, rows: seq<Message>, m: Message)
    ensures WithKey(field, key, rows + [m]) ==
            if Key(field, m) == key then WithKey(field, key, rows) + [m] else WithKey(field, key, rows)
  {
    assert (rows + [m])[..|rows + [m]| - 1] == rows;
  }

  lemma {:induction false} InsertComesLast(field: SortField, sorted: seq<Message>, m: Message, key: int)
    ensures WithKey(field, key, Insert(field, sorted, m)) == WithKey(field, key, sorted + [m])
  {
    WithKeyAppend(field, key, sorted, m);
    if sorted != [] && Key(field, sorted[|sorted| - 1]) > Key(field, m) {
      var init, last := sorted[..|sorted| - 1], sorted[|sorted| - 1];
      InsertComesLast(field, init, m, key);
      WithKeyAppend(field, key, init, m);
      WithKeyAppend(field, key, Insert(field, init, m), last);
    }
  }

  /** Rows with the same key stay in the order they were stored in. */
  lemma {:induction false} SortIsStable(field: SortField, rows: seq<Message>, key: int)
    ensures WithKey(field, key, Sort(field, rows)) == WithKey(field, key, rows)
  {
    if rows != [] {
      var init, last := rows[..|rows| - 1], rows[|rows| - 1];
      SortIsStable(field, init, key);
      InsertComesLast(field, Sort(field, init), last, key);
      WithKeyAppend(field, key, Sort(field, init), last);
    }
  }

  lemma {:induction false} ReversePermutes(rows: seq<Message>)
    ensures multiset(Reverse(rows)) == multiset(rows)
  {
    if rows != [] {
      ReversePermutes(rows[..|rows| - 1]);
      assert rows == rows[..|rows| - 1] + [rows[|rows| - 1]];
    }
  }

  predicate InOrder(field: SortField, descending: bool, rows: seq<Message>) {
    forall i, j :: 0 <= i < j < |rows| ==>
      if descending then Key(field, rows[i]) >= Key(field, rows[j]) else Key(field, rows[i]) <= Key(field, rows[j])
  }

  /** A listing holds the folder's messages, each once, in the order asked for. */
  lemma ListingIsSorted(ms: seq<Message>, folder: nat, field: SortField, descending: bool)
    ensures var r := Listing(ms, folder, field, descending);
            && multiset(r) == multiset(OfFolder(ms, folder))
            && InOrder(field, descending, r)
  {
    SortSorts(field, OfFolder(ms, folder));
    ReversePermutes(Sort(field, OfFolder(ms, folder)));
  }

  /** Told of the fields themselves: by UID or by date, rising or falling. */
  lemma ListingByField(ms: seq<Message>, folder: nat, field: SortField, descending: bool, i: nat, j: nat)
    requires i < j < |Listing(ms, folder, field, descending)|
    ensures var (a, b) := (Listing(ms, folder, field, descending)[i], Listing(ms, folder, field, descending)[j]);
            match field
            case ByUid => if descending then a.uid >= b.uid else a.uid <= b.uid
            case ByDate => if descending then a.date >= b.date else a.date <= b.date
  {
    ListingIsSorted(ms, folder, field, descending);
  }

  lemma ListingMembers(ms: seq<Message>, folder: nat, field: SortField, descending: bool, m: Message)
    ensures m in Listing(ms, folder, field, descending) <==> m in ms && m.folder == folder
  {
    ListingIsSorted(ms, folder, field, descending);
    var r := Listing(ms, folder, field, descending);
    assert m in r <==> m in multiset(r);
    assert m in OfFolder(ms, folder) <==> m in multiset(OfFolder(ms, folder));
    var at := OfFolderIsSubsequence(ms, folder);
  }

  /** A window holds as many messages as fit, of the folder only, in the order asked for. */
  lemma WindowOfListing(ms: seq<Message>, folder: nat, field: SortField, descending: bool, offset: nat, limit: nat)
    ensures var rows := Listing(ms, folder, field, descending);
            var items := Page(rows, offset, limit);
            && |rows| == Count(ms, folder)
            && |items| == (if offset <= |rows| then Min(limit, |rows| - offset) else 0)
            && (forall m :: m in items ==> m in ms && m.folder == folder)
            && (forall i :: 0 <= i < |items| ==> items[i] == rows[offset + i])
            && InOrder(field, descending, items)
  {
    var rows := Listing(ms, folder, field, descending);
    ListingIsSorted(ms, folder, field, descending);
    assert |multiset(rows)| == |multiset(OfFolder(ms, folder))|;
    forall m | m in Page(rows, offset, limit)
      ensures m in ms && m.folder == folder
    {
      assert m in rows;
      ListingMembers(ms, folder, field, descending, m);
    }
  }

  /** In a well-formed store a key has one row, so membership and lookup agree. */
  lemma LookupIsMembership(mail: Mail, m: Message)
    requires WellFormed(mail)
    ensures m in mail.messages <==> Lookup(mail.messages, m.folder, m.uid) == Some(m)
  {
    if m in mail.messages {
      var k :| 0 <= k < |mail.messages| && mail.messages[k] == m;
      var i := FindMessage(mail.messages, m.folder, m.uid);
    }
  }

  // ----- Counting -----

  function Count(ms: seq<Message>, folder: nat): nat {
    |OfFolder(ms, folder)|
  }

  lemma {:induction false} AppendCount(ms: seq<Message>, m: Message, folder: nat)
    ensures Count(ms + [m], folder) == Count(ms, folder) + if m.folder == folder then 1 else 0
  {
    assert (ms + [m])[..|ms + [m]| - 1] == ms;
  }

  lemma {:induction false} ReplaceCount(ms: seq<Message>, k: nat, m: Message, folder: nat)
    requires k < |ms| && ms[k].folder == m.folder
    ensures Count(ms[k := m], folder) == Count(ms, folder)
  {
    var ms' := ms[k := m];
    if k < |ms| - 1 {
      ReplaceCount(ms[..|ms| - 1], k, m, folder);
      assert ms'[..|ms| - 1] == ms[..|ms| - 1][k := m];
    } else {
      assert ms'[..|ms| - 1] == ms[..|ms| - 1];
    }
  }

  /** Ingesting into one folder grows its count by what the statistics report as inserted. */
  lemma {:induction false} IngestCount(mail: Mail, batch: seq<IngestMessage>, target: nat, folder: nat)
    requires forall m :: m in batch ==> m.folder == target
    ensures Count(Ingest(mail, batch).messages, folder)
         == Count(mail.messages, folder) + if folder == target then Stats(mail, batch).inserted else 0
  {
    if batch != [] {
      var init, last := batch[..|batch| - 1], batch[|batch| - 1];
      IngestCount(mail, init, target, folder);
      var mid := Ingest(mail, init);
      var i := FindMessage(mid.messages, last.folder, last.uid);
      if i < |mid.messages| {
        ReplaceCount(mid.messages, i, mid.messages[i].(flags := last.flags, date := last.date), folder);
      } else {
        AppendCount(mid.messages, Message(mid.nextId, last.folder, last.uid, last.date, last.flags), folder);
      }
    }
  }

  lemma {:induction false} PurgeCount(ms: seq<Message>, purged: nat, folder: nat)
    ensures Count(Without(ms, purged), folder) == if folder == purged then 0 else Count(ms, folder)
    ensures |ms| == |Without(ms, purged)| + Count(ms, purged)
  {
    if ms != [] {
      var init, last := ms[..|ms| - 1], ms[|ms| - 1];
      PurgeCount(init, purged, folder);
      AppendCount(init, last, folder);
      AppendCount(init, last, purged);
      AppendCount(Without(init, purged), last, folder);
      assert ms == init + [last];
    }
  }

  /** A batch of unstored, pairwise different keys is inserted whole. */
  lemma {:induction false} FreshBatchInsertsAll(mail: Mail, batch: seq<IngestMessage>)
    requires forall m :: m in batch ==> !Stored(mail.messages, m.folder, m.uid)
    requires forall i, j :: 0 <= i < j < |batch| ==>
               !(batch[i].folder == batch[j].folder && batch[i].uid == batch[j].uid)
    ensures Stats(mail, batch).inserted == |batch|
  {
    if batch != [] {
      var init, last := batch[..|batch| - 1], batch[|batch| - 1];
      FreshBatchInsertsAll(mail, init);
      IngestLookup(mail, init, last.folder, last.uid);
    }
  }

  /** Something is inserted exactly when some key of the batch was not stored. */
  lemma {:induction false} InsertsSomeExactlyWhen(mail: Mail, batch: seq<IngestMessage>)
    ensures Stats(mail, batch).inserted > 0 <==>
              exists m :: m in batch && !Stored(mail.messages, m.folder, m.uid)
  {
    if batch != [] {
      var init, last := batch[..|batch| - 1], batch[|batch| - 1];
      InsertsSomeExactlyWhen(mail, init);
      IngestLookup(mail, init, last.folder, last.uid);
      assert forall m :: m in batch <==> m in init || m == last;
    }
  }
}
