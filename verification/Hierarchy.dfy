/**
 The folder hierarchy: what LIST reports is written to the store with both cursors
 at 0, and the stored rows are then the folders of a sweep.
 */
module Hierarchy {
  import opened Wrappers
  import opened Store
  import opened Wire
  import opened ReferenceStore
  import opened FolderProtocol
  import opened FolderInvariant
  import opened FolderSafety
  import opened PassTheorems
  import Roles

  function NameOf(name: MailboxName): string {
    match name
    case InboxName => "INBOX"
    case OtherName(text) => text
  }

  function ToFolder(account: nat, d: Data, rule: Roles.Rule): NewFolder
    requires d.List?
  {
    NewFolder(account, NameOf(d.name), d.attributes, rule(NameOf(d.name), d.attributes),
              if d.delimiter.Some? then [d.delimiter.value] else "/", 0, 0)
  }

  /** The store after LIST; `upsertOk` says which writes succeed, by position of the response. */
  function AfterList(mail: Mail, account: nat, data: seq<Data>, upsertOk: nat -> bool, rule: Roles.Rule): Mail {
    if data == [] then mail
    else
      var n := |data| - 1;
      var before := AfterList(mail, account, data[..n], upsertOk, rule);
      if data[n].List? && upsertOk(n) then UpsertFolder(before, ToFolder(account, data[n], rule)) else before
  }

  /** The rows of the summaries that can be read. */
  function RowsFor(rows: seq<FolderRow>, summaries: seq<FolderSummary>, rowRead: nat -> bool): seq<FolderRow> {
    if summaries == [] then []
    else
      var rest, last := RowsFor(rows, summaries[..|summaries| - 1], rowRead), summaries[|summaries| - 1];
      if rowRead(last.id) && RowOf(rows, last.id).Some? then rest + [RowOf(rows, last.id).value] else rest
  }

  // ----- The service -----

  class HierarchySync {
    const account: nat
    const store: MemStore
    const rule: Roles.Rule

    constructor (account: nat, store: MemStore, l: Roles.Locale)
      ensures this.account == account && this.store == store && this.rule == Roles.ImapRule(l)
    {
      this.account, this.store, this.rule := account, store, Roles.ImapRule(l);
    }

    /** The folders of a sweep; a failed read leaves rows out. */
    method ListStoredFolders(listOk: bool, rowRead: nat -> bool) returns (rows: seq<FolderRow>)
      ensures rows == if listOk then RowsFor(store.folders, Summaries(store.State(), account), rowRead) else []
    {
      rows := [];
      if !listOk {
        return;
      }
      var summaries := store.ListFolders(account);
      for k := 0 to |summaries|
        invariant rows == RowsFor(store.folders, summaries[..k], rowRead)
        modifies {}
      {
        assert summaries[..k + 1][..k] == summaries[..k];
        var row := store.GetFolder(summaries[k].id);
        if rowRead(summaries[k].id) && row.Some? {
          rows := rows + [row.value];
        }
      }
      assert summaries[..|summaries|] == summaries;
    }

    /** LIST; `answer` is None when the command fails, and then nothing is written. */
    method SyncHierarchy(answer: Option<CommandOutcome>, upsertOk: nat -> bool, listOk: bool, rowRead: nat -> bool)
      returns (rows: Option<seq<FolderRow>>)
      modifies store`folders, store`nextId
      ensures rows.None? <==> answer.None? || !answer.value.IsOk()
      ensures rows.None? ==> store.State() == old(store.State())
      ensures rows.Some? ==>
                && store.State() == AfterList(old(store.State()), account, answer.value.data, upsertOk, rule)
                && rows.value ==
                   if listOk then RowsFor(store.folders, Summaries(store.State(), account), rowRead) else []
    {
      if answer.None? || !answer.value.IsOk() {
        return None;
      }
      var data := answer.value.data;
      for k := 0 to |data|
        invariant store.State() == AfterList(old(store.State()), account, data[..k], upsertOk, rule)
      {
        assert data[..k + 1][..k] == data[..k];
        if data[k].List? && upsertOk(k) {
          var delimiter := if data[k].delimiter.Some? then [data[k].delimiter.value] else "/";
          var name := NameOf(data[k].name);
          var _ := store.UpsertFolder(NewFolder(account, name, data[k].attributes,
                                                rule(name, data[k].attributes), delimiter, 0, 0));
        }
      }
      assert data[..|data|] == data;
      var found := ListStoredFolders(listOk, rowRead);
      rows := Some(found);
    }
  }

  // ----- What a hierarchy pass keeps and adds -----

  /** No cursor and no name of a known folder moves, whatever LIST reports and whichever writes fail. */
  lemma {:induction false} ListKeepsCursors(mail: Mail, account: nat, data: seq<Data>, upsertOk: nat -> bool,
                                            rule: Roles.Rule, id: nat)
    requires WellFormed(mail)
    ensures var after := AfterList(mail, account, data, upsertOk, rule);
            && WellFormed(after) && after.messages == mail.messages
            && (RowOf(mail.folders, id).Some? ==>
                  var before := RowOf(mail.folders, id).value;
                  && RowOf(after.folders, id).Some?
                  && RowOf(after.folders, id).value == before.(attributes := RowOf(after.folders, id).value.attributes,
                                                               role := RowOf(after.folders, id).value.role,
                                                               delimiter := RowOf(after.folders, id).value.delimiter))
  {
    if data != [] {
      var n := |data| - 1;
      ListKeepsCursors(mail, account, data[..n], upsertOk, rule, id);
      var before := AfterList(mail, account, data[..n], upsertOk, rule);
      if data[n].List? && upsertOk(n) {
        UpsertFolderKeepsWellFormed(before, ToFolder(account, data[n], rule));
        UpsertRow(before, ToFolder(account, data[n], rule), id);
      }
    }
  }

  ghost predicate HasRow(mail: Mail, account: nat, name: string) {
    exists row :: row in mail.folders && row.account == account && row.name == name
  }

  lemma UpsertGivesRow(mail: Mail, f: NewFolder)
    ensures HasRow(UpsertFolder(mail, f), f.account, f.name)
    ensures forall account, name :: HasRow(mail, account, name) ==> HasRow(UpsertFolder(mail, f), account, name)
  {
    var rows, rows' := mail.folders, UpsertFolder(mail, f).folders;
    assert rows'[FindNamed(rows, f.account, f.name)] in rows';
    forall account, name | HasRow(mail, account, name)
      ensures HasRow(UpsertFolder(mail, f), account, name)
    {
      var i :| 0 <= i < |rows| && rows[i].account == account && rows[i].name == name;
      assert rows'[i] in rows';
    }
  }

  /** LIST names the folder, and the write of that row succeeds. */
  ghost predicate Reported(data: seq<Data>, upsertOk: nat -> bool, name: string) {
    exists k :: 0 <= k < |data| && data[k].List? && upsertOk(k) && NameOf(data[k].name) == name
  }

  /** A reported folder whose write succeeds has a row under its name, and no row is lost. */
  lemma {:induction false} ListedHasRow(mail: Mail, account: nat, data: seq<Data>, upsertOk: nat -> bool,
                                        rule: Roles.Rule, name: string)
    requires HasRow(mail, account, name) || Reported(data, upsertOk, name)
    ensures HasRow(AfterList(mail, account, data, upsertOk, rule), account, name)
  {
    if data != [] {
      var n := |data| - 1;
      if data[n].List? && upsertOk(n) {
        UpsertGivesRow(AfterList(mail, account, data[..n], upsertOk, rule), ToFolder(account, data[n], rule));
      }
      if !(data[n].List? && upsertOk(n) && NameOf(data[n].name) == name) {
        assert Reported(data, upsertOk, name) ==> Reported(data[..n], upsertOk, name);
        ListedHasRow(mail, account, data[..n], upsertOk, rule, name);
      }
    }
  }

  /** LIST names the folder; INBOX goes by that name however it is written. */
  predicate Names(d: Data, name: string) {
    d.List? && (d.name == OtherName(name) || (d.name == InboxName && name == "INBOX"))
  }

  /** What a row shows of the response that names it. */
  ghost predicate Shows(row: FolderRow, d: Data, rule: Roles.Rule) {
    && d.List? && row.attributes == d.attributes && row.role == rule(row.name, d.attributes)
    && row.delimiter == (match d.delimiter case Some(ch) => [ch] case None => "/")
  }

  /**
   After LIST the row of a reported folder shows the last response that names it and
   whose write succeeds: its attributes, its delimiter (or "/"), and the role that
   the rule gives its name and attributes.
   */
  lemma {:induction false} ListedRowIsCurrent(mail: Mail, account: nat, data: seq<Data>, upsertOk: nat -> bool,
                                              rule: Roles.Rule, name: string, k: nat) returns (i: nat)
    requires k < |data| && Names(data[k], name) && upsertOk(k)
    requires forall j :: k < j < |data| && Names(data[j], name) ==> !upsertOk(j)
    ensures var rows := AfterList(mail, account, data, upsertOk, rule).folders;
            FirstNamed(rows, i, account, name) && Shows(rows[i], data[k], rule)
  {
    var n := |data| - 1;
    var before := AfterList(mail, account, data[..n], upsertOk, rule);
    if k < n {
      i := ListedRowIsCurrent(mail, account, data[..n], upsertOk, rule, name, k);
      assert data[..n][k] == data[k];
      if data[n].List? && upsertOk(n) {
        assert NameOf(data[n].name) != name;
        KeepsOthers(before, ToFolder(account, data[n], rule), account, name, i);
      }
    } else {
      i := UpsertWrites(before, ToFolder(account, data[n], rule));
    }
  }

  lemma KeepsOthers(mail: Mail, f: NewFolder, account: nat, name: string, i: nat)
    requires FirstNamed(mail.folders, i, account, name) && f.name != name
    ensures FirstNamed(UpsertFolder(mail, f).folders, i, account, name)
    ensures UpsertFolder(mail, f).folders[i] == mail.folders[i]
  {
    var rows, rows' := mail.folders, UpsertFolder(mail, f).folders;
    var k := UpsertWrites(mail, f);
    forall j | 0 <= j < |rows|
      ensures rows'[j].account == rows[j].account && rows'[j].name == rows[j].name
    {
    }
  }

  // ----- Which folders a sweep goes through -----

  /** The rows of an account that can be read. */
  function Readable(account: nat, rowRead: nat -> bool): FolderRow -> Option<FolderRow> {
    (row: FolderRow) => if row.account == account && rowRead(row.id) then Some(row) else None
  }

  /** A sweep goes through every stored row of the account that can be read, in stored order, and no other. */
  lemma RowsExactly(mail: Mail, account: nat, rowRead: nat -> bool) returns (at: seq<nat>)
    requires WellFormed(mail)
    ensures var rows := RowsFor(mail.folders, Summaries(mail, account), rowRead);
            && Picks(mail.folders, Readable(account, rowRead), rows, at)
            && forall r :: r in rows <==> r in mail.folders && r.account == account && rowRead(r.id)
  {
    var f, rows := Readable(account, rowRead), RowsFor(mail.folders, Summaries(mail, account), rowRead);
    at := RowsArePicked(mail.folders, mail.folders, mail.messages, account, rowRead);
    PicksMembers(mail.folders, f, rows, at);
    forall r
      ensures r in mail.folders && r.account == account && rowRead(r.id)
              <==> exists k :: 0 <= k < |mail.folders| && f(mail.folders[k]) == Some(r)
    {
      if r in mail.folders && r.account == account && rowRead(r.id) {
        var k :| 0 <= k < |mail.folders| && mail.folders[k] == r;
        assert f(mail.folders[k]) == Some(r);
      }
    }
  }

  lemma {:induction false} RowsArePicked(all: seq<FolderRow>, rows: seq<FolderRow>, ms: seq<Message>, account: nat,
                                         rowRead: nat -> bool) returns (at: seq<nat>)
    requires rows <= all && forall i, j :: 0 <= i < j < |all| ==> all[i].id != all[j].id
    ensures Picks(rows, Readable(account, rowRead), RowsFor(all, SummariesOf(rows, ms, account), rowRead), at)
  {
    at := [];
    if rows != [] {
      var n := |rows| - 1;
      at := RowsArePicked(all, rows[..n], ms, account, rowRead);
      LastRow(all, rows, ms, account, rowRead);
      at := PicksLast(rows, Readable(account, rowRead), RowsFor(all, SummariesOf(rows[..n], ms, account), rowRead), at);
    }
  }

  lemma LastRow(all: seq<FolderRow>, rows: seq<FolderRow>, ms: seq<Message>, account: nat, rowRead: nat -> bool)
    requires rows != [] && rows <= all && forall i, j :: 0 <= i < j < |all| ==> all[i].id != all[j].id
    ensures var before := RowsFor(all, SummariesOf(rows[..|rows| - 1], ms, account), rowRead);
            RowsFor(all, SummariesOf(rows, ms, account), rowRead)
            == match Readable(account, rowRead)(rows[|rows| - 1]) case Some(r) => before + [r] case None => before
  {
    var n := |rows| - 1;
    var rest, last := SummariesOf(rows[..n], ms, account), rows[n];
    assert all[n] == last && RowOf(all, last.id) == Some(last);
    if last.account == account {
      NextSummary(all, rest, Summarize(ms, last), rowRead);
    }
  }

  lemma NextSummary(all: seq<FolderRow>, rest: seq<FolderSummary>, s: FolderSummary, rowRead: nat -> bool)
    ensures var found := RowsFor(all, rest, rowRead);
            RowsFor(all, rest + [s], rowRead)
            == if rowRead(s.id) && RowOf(all, s.id).Some? then found + [RowOf(all, s.id).value] else found
  {
    assert (rest + [s])[..|rest + [s]| - 1] == rest;
  }

  /** What a sweep goes through is a listing: stored rows of the account, none twice. */
  lemma RowsAreListing(mail: Mail, account: nat, rowRead: nat -> bool)
    requires WellFormed(mail)
    ensures IsListing(mail, account, RowsFor(mail.folders, Summaries(mail, account), rowRead))
  {
    var rows := RowsFor(mail.folders, Summaries(mail, account), rowRead);
    var at := RowsExactly(mail, account, rowRead);
    forall i | 0 <= i < |rows|
      ensures rows[i] == mail.folders[at[i]] && rows[i].account == account
    {
      assert Readable(account, rowRead)(mail.folders[at[i]]) == Some(rows[i]);
    }
  }

  // ----- The protocol -----

  /** The answer to LIST names mailboxes the server has. */
  ghost predicate ListAnswer(s: Server, data: seq<Data>) {
    forall d :: d in data && d.List? ==> NameOf(d.name) in s
  }

  lemma {:induction false} ListReaches(c: Config, w: World, data: seq<Data>, upsertOk: nat -> bool, rule: Roles.Rule)
    requires Reachable(c, w) && w.client == Client.Hierarchy && ListAnswer(w.server, data)
    ensures Reachable(c, w.(mail := AfterList(w.mail, c.account, data, upsertOk, rule)))
  {
    if data == [] {
      assert w.(mail := w.mail) == w;
    } else {
      var n := |data| - 1;
      assert forall d :: d in data[..n] ==> d in data;
      ListReaches(c, w, data[..n], upsertOk, rule);
      if data[n].List? && upsertOk(n) {
        assert data[n] in data;
        UpsertReaches(c, w.(mail := AfterList(w.mail, c.account, data[..n], upsertOk, rule)), data[n], rule);
      }
    }
  }

  lemma UpsertReaches(c: Config, w: World, d: Data, rule: Roles.Rule)
    requires Reachable(c, w) && w.client == Client.Hierarchy && d.List? && NameOf(d.name) in w.server
    ensures Reachable(c, w.(mail := UpsertFolder(w.mail, ToFolder(c.account, d, rule))))
  {
    var f := ToFolder(c.account, d, rule);
    ReachableStep(c, w, w.(mail := UpsertFolder(w.mail, f)), OnClient(UpsertListed(f)));
  }

  /** Each OK SELECT of a sweep over different folders is remembered at its end. */
  lemma {:induction false} SweepSees(c: Config, w: World, visits: seq<Visit>, i: nat)
    requires CleanSweep(c, w, visits) && i < |visits| && IsAnswered(visits[i].input.select)
    requires forall j, k :: 0 <= j < k < |w.client.todo| ==> w.client.todo[j].id != w.client.todo[k].id
    ensures w.client.todo[i].id in SweepEnd(c, w, visits).seen
    ensures SweepEnd(c, w, visits).seen[w.client.todo[i].id] == InfoOf(visits[i].input.select.value)
    decreases |visits|
  {
    var v := visits[0];
    var w' := AfterPass(c, w, v.input, v.s2);
    if i > 0 {
      SweepSees(c, w', visits[1..], i - 1);
    } else {
      SweepRemembers(c, w', visits[1..], w.client.todo[0].id);
    }
  }

  /** What is remembered of a folder stays while others are visited. */
  lemma {:induction false} SweepRemembers(c: Config, w: World, visits: seq<Visit>, id: nat)
    requires CleanSweep(c, w, visits) && id in w.seen
    requires forall j :: 0 <= j < |w.client.todo| ==> w.client.todo[j].id != id
    ensures id in SweepEnd(c, w, visits).seen && SweepEnd(c, w, visits).seen[id] == w.seen[id]
    decreases |visits|
  {
    if visits != [] {
      SweepRemembers(c, AfterPass(c, w, visits[0].input, visits[0].s2), visits[1..], id);
    }
  }

  /** Everything a cycle learns between connecting and its first rest. */
  datatype CycleInput = CycleInput(data: seq<Data>, upsertOk: nat -> bool, rowRead: nat -> bool, visits: seq<Visit>)

  /** The world in which the first sweep of a cycle starts. */
  function SweepStart(c: Config, w: World, input: CycleInput, rule: Roles.Rule): World {
    var mail := AfterList(w.mail, c.account, input.data, input.upsertOk, rule);
    World(w.server, mail, Sweeping(RowsFor(mail.folders, Summaries(mail, c.account), input.rowRead)), map[])
  }

  /**
   A cycle from a lost connection in any reachable state, after any history of
   passes cut off anywhere: once its sweep goes through, the store is whole again.
   */
  lemma CycleConverges(c: Config, w: World, input: CycleInput, rule: Roles.Rule)
    requires KeepsEpoch(c) && Reachable(c, w) && w.client == Down && ListAnswer(w.server, input.data)
    requires CleanSweep(c, SweepStart(c, w, input, rule), input.visits)
    ensures var end := SweepEnd(c, SweepStart(c, w, input, rule), input.visits).(client := AtRest);
            Reachable(c, end) && ConvergedAtRest(end) && CursorsAtRest(end) && EpochPure(end) && NoGaps(end)
  {
    var w1, start := w.(client := Client.Hierarchy), SweepStart(c, w, input, rule);
    ReachableStep(c, w, w1, OnClient(Connect));
    ListReaches(c, w1, input.data, input.upsertOk, rule);
    var w2 := w1.(mail := start.mail);
    ReachableWellFormed(c, w2);
    RowsAreListing(start.mail, c.account, input.rowRead);
    ReachableStep(c, w2, start, OnClient(ListRows(start.client.todo)));
    SweepConverges(c, start, input.visits);
  }

  /** The store has caught up with what a SELECT of the folder reported. */
  ghost predicate CaughtUp(mail: Mail, server: Server, id: nat, info: SelectInfo) {
    && RowOf(mail.folders, id).Some?
    && var row := RowOf(mail.folders, id).value;
       && row.uidValidity == info.uidValidity && row.highestModseq == info.highestModseq
       && forall u: U32 ::
            row.name in server && row.uidValidity == server[row.name].uidValidity && u in server[row.name].live
              && u < info.uidNext ==>
              Stored(mail.messages, id, u)
  }

  /**
   No folder is left out: after a cycle whose sweep goes through, every stored row of
   the account that could be read has been visited, in stored order, and has caught
   up with its SELECT where that was OK.
   */
  lemma CycleCovers(c: Config, w: World, input: CycleInput, rule: Roles.Rule, row: FolderRow) returns (i: nat)
    requires KeepsEpoch(c) && Reachable(c, w) && w.client == Down && ListAnswer(w.server, input.data)
    requires CleanSweep(c, SweepStart(c, w, input, rule), input.visits)
    requires row in SweepStart(c, w, input, rule).mail.folders && row.account == c.account && input.rowRead(row.id)
    ensures i < |input.visits| && SweepStart(c, w, input, rule).client.todo[i] == row
    ensures IsAnswered(input.visits[i].input.select) ==>
              var end := SweepEnd(c, SweepStart(c, w, input, rule), input.visits);
              CaughtUp(end.mail, end.server, row.id, InfoOf(input.visits[i].input.select.value))
  {
    var start := SweepStart(c, w, input, rule);
    CycleConverges(c, w, input, rule);
    ReachableWellFormed(c, w);
    ListKeepsCursors(w.mail, c.account, input.data, input.upsertOk, rule, row.id);
    i := SweepCovers(c, start, input.rowRead, input.visits, row);
  }

  /** The same of any sweep that goes through the rows as they are listed. */
  lemma SweepCovers(c: Config, start: World, rowRead: nat -> bool, visits: seq<Visit>, row: FolderRow) returns (i: nat)
    requires WellFormed(start.mail) && CleanSweep(c, start, visits)
    requires start.client == Sweeping(RowsFor(start.mail.folders, Summaries(start.mail, c.account), rowRead))
    requires row in start.mail.folders && row.account == c.account && rowRead(row.id)
    requires var end := SweepEnd(c, start, visits).(client := AtRest); ConvergedAtRest(end) && CursorsAtRest(end)
    ensures i < |visits| && start.client.todo[i] == row
    ensures IsAnswered(visits[i].input.select) ==>
              var end := SweepEnd(c, start, visits);
              CaughtUp(end.mail, end.server, row.id, InfoOf(visits[i].input.select.value))
  {
    var at := RowsExactly(start.mail, c.account, rowRead);
    RowsAreListing(start.mail, c.account, rowRead);
    var todo := start.client.todo;
    assert row in todo;
    i :| 0 <= i < |todo| && todo[i] == row;
    if IsAnswered(visits[i].input.select) {
      SweepSees(c, start, visits, i);
      RestHasCaughtUp(SweepEnd(c, start, visits), row.id);
    }
  }

  lemma RestHasCaughtUp(w: World, id: nat)
    requires ConvergedAtRest(w.(client := AtRest)) && CursorsAtRest(w.(client := AtRest)) && id in w.seen
    ensures CaughtUp(w.mail, w.server, id, w.seen[id])
  {
    assert id in w.(client := AtRest).seen;
  }

  lemma ReachableWellFormed(c: Config, w: World)
    requires KeepsEpoch(c) && Reachable(c, w)
    ensures WellFormed(w.mail)
  {
    var ws, steps :| IsRun(c, ws, steps) && ws[|steps|] == w;
    RunKeepsInv(c, ws, steps, |steps|);
  }
}
