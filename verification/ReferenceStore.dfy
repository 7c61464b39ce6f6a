/** The in-memory reference store of the test suite: the mail tables, the blobs and the account states. */
module ReferenceStore {
  import opened Wrappers
  import opened Store
  import opened Wire

  datatype ConnectionState = Disconnected | Connecting | Authenticating | Syncing | Idle | OfflineMode

  datatype FolderSummary = FolderSummary(id: nat, account: nat, name: string, role: Option<FolderRole>,
                                         delimiter: string, unread: nat, total: nat)

  datatype MessagePage = MessagePage(items: seq<Message>, total: nat)

  /** The unread messages of a folder. */
  function Unread(ms: seq<Message>, folder: nat): nat {
    if ms == [] then 0
    else
      var last := ms[|ms| - 1];
      Unread(ms[..|ms| - 1], folder) + if last.folder == folder && Flag.Seen !in last.flags then 1 else 0
  }

  /** Counters of a row; the Sent folder reports none. */
  function Summarize(ms: seq<Message>, row: FolderRow): FolderSummary {
    var hidden := row.role == Some(FolderRole.Sent);
    FolderSummary(row.id, row.account, row.name, row.role, row.delimiter,
                  if hidden then 0 else Unread(ms, row.id), if hidden then 0 else Count(ms, row.id))
  }

  function Summaries(mail: Mail, account: nat): seq<FolderSummary> {
    SummariesOf(mail.folders, mail.messages, account)
  }

  function SummariesOf(rows: seq<FolderRow>, ms: seq<Message>, account: nat): seq<FolderSummary> {
    if rows == [] then []
    else
      var rest, last := SummariesOf(rows[..|rows| - 1], ms, account), rows[|rows| - 1];
      if last.account == account then rest + [Summarize(ms, last)] else rest
  }

  // ----- What the counters count -----

  /** The places at which `p` holds. */
  function Where<T>(xs: seq<T>, p: T -> bool): set<nat> {
    set i: nat | i < |xs| && p(xs[i])
  }

  lemma OneMore<T>(xs: seq<T>, p: T -> bool)
    requires xs != []
    ensures |Where(xs, p)| == |Where(xs[..|xs| - 1], p)| + if p(xs[|xs| - 1]) then 1 else 0
  {
    var n: nat := |xs| - 1;
    var before := Where(xs[..n], p);
    assert n !in before;
    assert Where(xs, p) == before + if p(xs[n]) then {n} else {};
  }

  function InFolder(folder: nat): Message -> bool {
    (m: Message) => m.folder == folder
  }

  function UnseenIn(folder: nat): Message -> bool {
    (m: Message) => m.folder == folder && Flag.Seen !in m.flags
  }

  /** The places of a folder's messages. */
  function PlacesOf(ms: seq<Message>, folder: nat): set<nat> {
    Where(ms, InFolder(folder))
  }

  /** The places of those among them that are not marked as seen. */
  function UnseenOf(ms: seq<Message>, folder: nat): set<nat> {
    Where(ms, UnseenIn(folder))
  }

  lemma {:induction false} CountersCount(ms: seq<Message>, folder: nat)
    ensures Unread(ms, folder) == |UnseenOf(ms, folder)| && Count(ms, folder) == |PlacesOf(ms, folder)|
  {
    if ms != [] {
      CountersCount(ms[..|ms| - 1], folder);
      OneMore(ms, InFolder(folder));
      OneMore(ms, UnseenIn(folder));
    }
  }

  /** A summary of the row: its fields, and its counters unless it is a Sent folder, which shows none. */
  ghost predicate Describes(s: FolderSummary, row: FolderRow, ms: seq<Message>) {
    && s.id == row.id && s.account == row.account && s.name == row.name && s.role == row.role
    && s.delimiter == row.delimiter
    && (row.role == Some(FolderRole.Sent) ==> s.unread == s.total == 0)
    && (row.role != Some(FolderRole.Sent) ==>
          s.unread == |UnseenOf(ms, row.id)| && s.total == |PlacesOf(ms, row.id)|)
  }

  /** The rows of an account. */
  function Own(account: nat): FolderRow -> Option<FolderRow> {
    (row: FolderRow) => if row.account == account then Some(row) else None
  }

  /** A listing describes the rows of the account, each of them once, in stored order. */
  lemma {:induction false} SummariesExactly(rows: seq<FolderRow>, ms: seq<Message>, account: nat)
    returns (own: seq<FolderRow>, at: seq<nat>)
    ensures Picks(rows, Own(account), own, at) && |own| == |SummariesOf(rows, ms, account)|
    ensures forall i :: 0 <= i < |own| ==> Describes(SummariesOf(rows, ms, account)[i], own[i], ms)
  {
    own, at := [], [];
    if rows != [] {
      var last := rows[|rows| - 1];
      own, at := SummariesExactly(rows[..|rows| - 1], ms, account);
      at := PicksLast(rows, Own(account), own, at);
      if last.account == account {
        own := own + [last];
        CountersCount(ms, last.id);
      }
    }
  }

  /** The value of the first pair with the given key. */
  function Find<K(==), V>(pairs: seq<(K, V)>, key: K): Option<V> {
    if pairs == [] then None
    else if pairs[0].0 == key then Some(pairs[0].1)
    else Find(pairs[1..], key)
  }

  lemma {:induction false} FindAfterAppend<K, V>(pairs: seq<(K, V)>, key: K, value: V, k: K)
    ensures Find(pairs + [(key, value)], k) ==
            if Find(pairs, k).Some? then Find(pairs, k) else if k == key then Some(value) else None
  {
    if pairs != [] {
      assert (pairs + [(key, value)])[1..] == pairs[1..] + [(key, value)];
      FindAfterAppend(pairs[1..], key, value, k);
    }
  }

  class MemStore {
    var folders: seq<FolderRow>
    var messages: seq<Message>
    var nextId: nat
    var blobs: seq<(string, Bytes)>
    var accountStates: seq<(nat, ConnectionState)>
    var ingestInserted: nat
    /** Whether a UIDVALIDITY of 0 is written as it is. */
    const literalZero: bool
    const digest: Bytes -> string

    constructor (literalZero: bool, digest: Bytes -> string)
      ensures State() == EmptyMail && blobs == [] && accountStates == [] && ingestInserted == 0
      ensures this.literalZero == literalZero && this.digest == digest
    {
      this.literalZero, this.digest := literalZero, digest;
      folders, messages, nextId := [], [], 0;
      blobs, accountStates, ingestInserted := [], [], 0;
    }

    /** The mail tables as a value. */
    function State(): Mail
      reads this
    {
      Mail(folders, messages, nextId)
    }

    method UpsertFolder(f: NewFolder) returns (id: nat)
      modifies `folders, `nextId
      ensures State() == Store.UpsertFolder(old(State()), f)
      ensures exists row :: row in folders && row.id == id && row.account == f.account && row.name == f.name
    {
      var i := FindNamed(folders, f.account, f.name);
      if i < |folders| {
        var row := folders[i].(attributes := f.attributes, role := f.role, delimiter := f.delimiter);
        id := row.id;
        folders := folders[i := row];
        assert folders[i] in folders;
      } else {
        var row := FolderRow(nextId, f.account, f.name, f.attributes, f.role, f.delimiter, f.uidValidity,
                             f.highestModseq);
        id := nextId;
        folders := folders + [row];
        nextId := nextId + 1;
        assert row in folders;
      }
    }

    method ListFolders(account: nat) returns (summaries: seq<FolderSummary>)
      ensures summaries == Summaries(State(), account)
    {
      summaries := Summaries(State(), account);
    }

    method GetFolder(id: nat) returns (row: Option<FolderRow>)
      ensures row == RowOf(folders, id)
    {
      row := RowOf(folders, id);
    }

    method IngestBatch(batch: seq<IngestMessage>) returns (stats: IngestStats)
      modifies `messages, `nextId, `ingestInserted
      ensures State() == Ingest(old(State()), batch)
      ensures stats == Stats(old(State()), batch)
      ensures ingestInserted == old(ingestInserted) + stats.inserted
    {
      var inserted, updated := 0, 0;
      var k := 0;
      while k < |batch|
        invariant 0 <= k <= |batch|
        invariant folders == old(folders) && ingestInserted == old(ingestInserted)
        invariant State() == Ingest(old(State()), batch[..k])
        invariant IngestStats(inserted, updated) == Stats(old(State()), batch[..k])
      {
        var m := batch[k];
        assert batch[..k + 1][..k] == batch[..k] && batch[..k + 1][k] == m;
        var i := FindMessage(messages, m.folder, m.uid);
        if i < |messages| {
          messages := messages[i := messages[i].(flags := m.flags, date := m.date)];
          updated := updated + 1;
        } else {
          messages := messages + [Message(nextId, m.folder, m.uid, m.date, m.flags)];
          nextId := nextId + 1;
          inserted := inserted + 1;
        }
        k := k + 1;
      }
      assert batch[..k] == batch;
      ingestInserted := ingestInserted + inserted;
      stats := IngestStats(inserted, updated);
    }

    /** One window of the folder's messages in the order asked for; `total` counts them all. */
    method ListMessages(folder: nat, offset: nat, limit: nat, field: SortField,
                        descending: bool) returns (page: MessagePage)
      ensures page.items == Page(Listing(messages, folder, field, descending), offset, limit)
      ensures page.total == |Listing(messages, folder, field, descending)| == Count(messages, folder)
      ensures |page.items| == if offset <= page.total then Min(limit, page.total - offset) else 0
      ensures forall m :: m in page.items ==> m in messages && m.folder == folder
      ensures InOrder(field, descending, page.items)
    {
      var rows: seq<Message> := [];
      for k := 0 to |messages|
        invariant rows == OfFolder(messages[..k], folder)
        modifies {}
      {
        assert messages[..k + 1][..k] == messages[..k];
        if messages[k].folder == folder {
          rows := rows + [messages[k]];
        }
      }
      assert messages[..|messages|] == messages;
      rows := Sort(field, rows);
      if descending {
        rows := Reverse(rows);
      }
      WindowOfListing(messages, folder, field, descending, offset, limit);
      var from := Min(offset, |rows|);
      page := MessagePage(rows[from..Min(from + limit, |rows|)], |rows|);
    }

    method PurgeFolder(folder: nat) returns (removed: nat)
      modifies `messages
      ensures State() == Purge(old(State()), folder)
      ensures removed == Count(old(messages), folder)
    {
      var before := |messages|;
      PurgeCount(messages, folder, folder);
      messages := Without(messages, folder);
      removed := before - |messages|;
    }

    method UpdateSyncCursors(folder: nat, uidValidity: U32, modseq: Option<U64>) returns (found: bool)
      modifies `folders
      ensures State() == UpdateCursors(old(State()), literalZero, folder, uidValidity, modseq)
      ensures found <==> RowOf(old(folders), folder).Some?
    {
      var i := FindFolder(folders, folder);
      if i == |folders| {
        return false;
      }
      var row := folders[i];
      if uidValidity != 0 || literalZero {
        row := row.(uidValidity := uidValidity);
      }
      if modseq.Some? {
        row := row.(highestModseq := modseq.value);
      }
      folders := folders[i := row];
      found := true;
    }

    method MaxUid(folder: nat) returns (max: Option<U32>)
      ensures max == Store.MaxUid(messages, folder)
    {
      max := Store.MaxUid(messages, folder);
    }

    /** Content-addressed: a known hash is not written again. */
    method WriteBlob(bytes: Bytes) returns (hash: string)
      modifies `blobs
      ensures hash == digest(bytes)
      ensures Find(blobs, hash).Some?
      ensures old(Find(blobs, hash)).None? ==> Find(blobs, hash) == Some(bytes)
      ensures forall h :: h != hash || old(Find(blobs, h)).Some? ==> Find(blobs, h) == old(Find(blobs, h))
    {
      hash := digest(bytes);
      if Find(blobs, hash).None? {
        forall h
          ensures Find(blobs + [(hash, bytes)], h) ==
                  if Find(blobs, h).Some? then Find(blobs, h) else if h == hash then Some(bytes) else None
        {
          FindAfterAppend(blobs, hash, bytes, h);
        }
        blobs := blobs + [(hash, bytes)];
      }
    }

    method SetAccountState(id: nat, state: ConnectionState)
      modifies `accountStates
      ensures Find(accountStates, id) == Some(state)
      ensures forall other :: other != id ==> Find(accountStates, other) == old(Find(accountStates, other))
    {
      if Find(accountStates, id).Some? {
        accountStates := SetFirst(accountStates, id, state);
      } else {
        forall other
          ensures Find(accountStates + [(id, state)], other) ==
                  if Find(accountStates, other).Some? then Find(accountStates, other)
                      else if other == id then Some(state) else None
        {
          FindAfterAppend(accountStates, id, state, other);
        }
        accountStates := accountStates + [(id, state)];
      }
    }
  }

  /** Overwrites the first pair with the given key. */
  function SetFirst<K(!new, ==), V>(pairs: seq<(K, V)>, key: K, value: V): (r: seq<(K, V)>)
    requires Find(pairs, key).Some?
    ensures |r| == |pairs|
    ensures Find(r, key) == Some(value)
    ensures forall k :: k != key ==> Find(r, k) == Find(pairs, k)
  {
    if pairs[0].0 == key then [(key, value)] + pairs[1..]
    else [pairs[0]] + SetFirst(pairs[1..], key, value)
  }
}
