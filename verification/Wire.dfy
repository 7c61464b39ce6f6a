/**
 Server responses as the session layer hands them on, and what the engine reads
 out of them. The engine's own loops over responses are in `SyncService`; the
 functions here say what those loops compute.
 */
module Wire {
  import opened Wrappers
  import opened Store

  type NonZeroU32 = x: U32 | x > 0 witness 1
  type NonZeroU64 = x: U64 | x > 0 witness 1

  datatype WireFlag = Known(flag: Flag) | Keyword(name: string) | RecentFlag

  datatype FetchItem =
    | UidItem(uid: NonZeroU32)
    | FlagsItem(flags: seq<WireFlag>)
    | DateItem(date: int)
    | SizeItem(size: nat)
    | EnvelopeItem(envelope: string)
    | BodyItem(body: Option<Bytes>)
    | OtherItem

  datatype MailboxName = InboxName | OtherName(text: string)

  datatype Data =
    | Exists(count: nat)
    | Recent(count: nat)
    | Expunge(seqno: nat)
    | Vanished(uids: seq<U32>)
    | Fetch(items: seq<FetchItem>)
    | Capability(capabilities: seq<string>)
    | List(name: MailboxName, attributes: seq<string>, delimiter: Option<char>)
    | OtherData(text: string)

  datatype Code = UidValidity(v: NonZeroU32) | UidNext(n: NonZeroU32) | HighestModSeq(m: NonZeroU64) | OtherCode

  datatype Kind = OK | NO | BAD

  datatype Status =
    | Tagged(tag: string, kind: Kind, code: Option<Code>)
    | Untagged(kind: Kind, code: Option<Code>)
    | Bye

  datatype CommandOutcome = CommandOutcome(status: Status, data: seq<Data>, untagged: seq<Status>) {
    predicate IsOk() {
      status.Tagged? && status.kind == OK
    }
  }

  datatype SelectInfo = SelectInfo(uidValidity: U32, uidNext: U32, highestModseq: U64, exists_: nat)

  datatype Unsolicited =
    | SawExists(count: nat)
    | SawRecent(count: nat)
    | SawExpunge(seqno: nat)
    | SawFlags(uid: U32, flags: seq<WireFlag>)
    | SawVanished(uids: seq<U32>)
    | SawOther(text: string)

  /** A command succeeded only with a tagged OK of its own; an untagged one or a BYE does not count. */
  lemma OkExactlyWhen(outcome: CommandOutcome)
    ensures outcome.IsOk() <==> exists tag, code :: outcome.status == Tagged(tag, OK, code)
  {
  }

  // ----- SELECT -----

  function StatusCode(s: Status): Option<Code> {
    match s
    case Tagged(_, _, code) => code
    case Untagged(_, code) => code
    case Bye => None
  }

  /** The statuses of an outcome in the order they are read: untagged ones, then the tagged one. */
  function Statuses(outcome: CommandOutcome): seq<Status> {
    outcome.untagged + [outcome.status]
  }

  function LastUidValidity(ss: seq<Status>): U32 {
    if ss == [] then 0
    else match StatusCode(ss[|ss| - 1])
      case Some(UidValidity(v)) => v
      case _ => LastUidValidity(ss[..|ss| - 1])
  }

  function LastUidNext(ss: seq<Status>): U32 {
    if ss == [] then 0
    else match StatusCode(ss[|ss| - 1])
      case Some(UidNext(n)) => n
      case _ => LastUidNext(ss[..|ss| - 1])
  }

  function LastModseq(ss: seq<Status>): U64 {
    if ss == [] then 0
    else match StatusCode(ss[|ss| - 1])
      case Some(HighestModSeq(m)) => m
      case _ => LastModseq(ss[..|ss| - 1])
  }

  function LastExists(data: seq<Data>): nat {
    if data == [] then 0
    else if data[|data| - 1].Exists? then data[|data| - 1].count
    else LastExists(data[..|data| - 1])
  }

  /** The metadata of a SELECT: for each kind of code the last one counts, 0 when there is none. */
  function InfoOf(outcome: CommandOutcome): SelectInfo {
    var ss := Statuses(outcome);
    SelectInfo(LastUidValidity(ss), LastUidNext(ss), LastModseq(ss), LastExists(outcome.data))
  }

  predicate Sends(ss: seq<Status>, code: Code) {
    exists i :: 0 <= i < |ss| && StatusCode(ss[i]) == Some(code)
  }

  /** Each value read was sent in a code of its kind, and is 0 only when no code of that kind was sent. */
  lemma {:induction false} CodesAreSent(ss: seq<Status>)
    ensures LastUidValidity(ss) != 0 ==> Sends(ss, UidValidity(LastUidValidity(ss)))
    ensures LastUidNext(ss) != 0 ==> Sends(ss, UidNext(LastUidNext(ss)))
    ensures LastModseq(ss) != 0 ==> Sends(ss, HighestModSeq(LastModseq(ss)))
    ensures forall v: NonZeroU32 :: Sends(ss, UidValidity(v)) ==> LastUidValidity(ss) != 0
    ensures forall n: NonZeroU32 :: Sends(ss, UidNext(n)) ==> LastUidNext(ss) != 0
    ensures forall m: NonZeroU64 :: Sends(ss, HighestModSeq(m)) ==> LastModseq(ss) != 0
  {
    if ss != [] {
      var init := ss[..|ss| - 1];
      CodesAreSent(init);
      forall code
        ensures Sends(ss, code) <==> Sends(init, code) || StatusCode(ss[|ss| - 1]) == Some(code)
      {
        assert forall i :: 0 <= i < |init| ==> init[i] == ss[i];
      }
    }
  }

  function ValidityIn(s: Status): Option<nat> {
    match s
    case Tagged(_, _, Some(UidValidity(v))) => Some(v)
    case Untagged(_, Some(UidValidity(v))) => Some(v)
    case _ => None
  }

  function NextIn(s: Status): Option<nat> {
    match s
    case Tagged(_, _, Some(UidNext(n))) => Some(n)
    case Untagged(_, Some(UidNext(n))) => Some(n)
    case _ => None
  }

  function ModseqIn(s: Status): Option<nat> {
    match s
    case Tagged(_, _, Some(HighestModSeq(m))) => Some(m)
    case Untagged(_, Some(HighestModSeq(m))) => Some(m)
    case _ => None
  }

  function CountIn(d: Data): Option<nat> {
    match d
    case Exists(n) => Some(n)
    case _ => None
  }

  /** The value read, with 0 for none. */
  function NonZero(x: nat): Option<nat> {
    if x == 0 then None else Some(x)
  }

  /** Of each kind of code the last one sent is read, be it in a tagged or an untagged status, and 0 without one. */
  lemma {:induction false} LastCodesCount(ss: seq<Status>)
    ensures IsLast(ss, ValidityIn, NonZero(LastUidValidity(ss)))
    ensures IsLast(ss, NextIn, NonZero(LastUidNext(ss)))
    ensures IsLast(ss, ModseqIn, NonZero(LastModseq(ss)))
  {
    if ss != [] {
      var init := ss[..|ss| - 1];
      LastCodesCount(init);
      LastStep(ss, ValidityIn, NonZero(LastUidValidity(init)));
      LastStep(ss, NextIn, NonZero(LastUidNext(init)));
      LastStep(ss, ModseqIn, NonZero(LastModseq(init)));
    }
  }

  /** The last EXISTS counts, and a SELECT without one shows an empty mailbox. */
  lemma {:induction false} LastExistsCounts(data: seq<Data>)
    ensures exists n :: IsLast(data, CountIn, n) && LastExists(data) == n.GetOr(0)
  {
    if data != [] {
      var init := data[..|data| - 1];
      LastExistsCounts(init);
      var n :| IsLast(init, CountIn, n) && LastExists(init) == n.GetOr(0);
      LastStep(data, CountIn, n);
    } else {
      assert IsLast(data, CountIn, None);
    }
  }

  /** What a SELECT reports: the last code of each kind, the tagged status being the last one read. */
  lemma InfoReads(outcome: CommandOutcome)
    ensures var info, ss := InfoOf(outcome), outcome.untagged + [outcome.status];
            && IsLast(ss, ValidityIn, NonZero(info.uidValidity))
            && IsLast(ss, NextIn, NonZero(info.uidNext))
            && IsLast(ss, ModseqIn, NonZero(info.highestModseq))
            && exists n :: IsLast(outcome.data, CountIn, n) && info.exists_ == n.GetOr(0)
  {
    LastCodesCount(Statuses(outcome));
    LastExistsCounts(outcome.data);
  }

  // ----- FETCH -----

  function LastUid(items: seq<FetchItem>): Option<NonZeroU32> {
    if items == [] then None
    else if items[|items| - 1].UidItem? then Some(items[|items| - 1].uid)
    else LastUid(items[..|items| - 1])
  }

  function LastFlags(items: seq<FetchItem>): Option<seq<WireFlag>> {
    if items == [] then None
    else if items[|items| - 1].FlagsItem? then Some(items[|items| - 1].flags)
    else LastFlags(items[..|items| - 1])
  }

  function LastDate(items: seq<FetchItem>): Option<int> {
    if items == [] then None
    else if items[|items| - 1].DateItem? then Some(items[|items| - 1].date)
    else LastDate(items[..|items| - 1])
  }

  function LastSize(items: seq<FetchItem>): Option<nat> {
    if items == [] then None
    else if items[|items| - 1].SizeItem? then Some(items[|items| - 1].size)
    else LastSize(items[..|items| - 1])
  }

  function LastEnvelope(items: seq<FetchItem>): Option<string> {
    if items == [] then None
    else if items[|items| - 1].EnvelopeItem? then Some(items[|items| - 1].envelope)
    else LastEnvelope(items[..|items| - 1])
  }

  /** The flags the crate knows; keywords and \Recent are dropped. */
  function KnownFlags(fl: seq<WireFlag>): seq<Flag> {
    if fl == [] then []
    else
      var rest := KnownFlags(fl[..|fl| - 1]);
      if fl[|fl| - 1].Known? then rest + [fl[|fl| - 1].flag] else rest
  }

  function UidIn(i: FetchItem): Option<U32> {
    match i
    case UidItem(uid) => Some(uid)
    case _ => None
  }

  function FlagsIn(i: FetchItem): Option<seq<WireFlag>> {
    match i
    case FlagsItem(flags) => Some(flags)
    case _ => None
  }

  function DateIn(i: FetchItem): Option<int> {
    match i
    case DateItem(date) => Some(date)
    case _ => None
  }

  function SizeIn(i: FetchItem): Option<nat> {
    match i
    case SizeItem(size) => Some(size)
    case _ => None
  }

  function EnvelopeIn(i: FetchItem): Option<string> {
    match i
    case EnvelopeItem(envelope) => Some(envelope)
    case _ => None
  }

  function FlagIn(w: WireFlag): Option<Flag> {
    match w
    case Known(f) => Some(f)
    case _ => None
  }

  /** Of each kind of item the last one counts. */
  lemma {:induction false} LastItemsCount(items: seq<FetchItem>)
    ensures IsLast(items, UidIn, LastUid(items))
    ensures IsLast(items, FlagsIn, LastFlags(items))
    ensures IsLast(items, DateIn, LastDate(items))
    ensures IsLast(items, SizeIn, LastSize(items))
    ensures IsLast(items, EnvelopeIn, LastEnvelope(items))
  {
    if items != [] {
      var init := items[..|items| - 1];
      LastItemsCount(init);
      LastStep(items, UidIn, LastUid(init));
      LastStep(items, FlagsIn, LastFlags(init));
      LastStep(items, DateIn, LastDate(init));
      LastStep(items, SizeIn, LastSize(init));
      LastStep(items, EnvelopeIn, LastEnvelope(init));
    }
  }

  /** The flags kept are the known ones of the list, in order, and no known one is lost. */
  lemma {:induction false} KnownFlagsExactly(fl: seq<WireFlag>) returns (at: seq<nat>)
    ensures Picks(fl, FlagIn, KnownFlags(fl), at)
    ensures forall f :: f in KnownFlags(fl) <==> Known(f) in fl
  {
    at := [];
    if fl != [] {
      at := KnownFlagsExactly(fl[..|fl| - 1]);
      at := PicksLast(fl, FlagIn, KnownFlags(fl[..|fl| - 1]), at);
    }
    PicksMembers(fl, FlagIn, KnownFlags(fl), at);
  }

  /** A response the delta pass turns into a row: it names a UID and carries an envelope. */
  predicate Ingestable(d: Data) {
    d.Fetch? && LastUid(d.items).Some? && LastEnvelope(d.items).Some?
  }

  function ToIngest(folder: nat, d: Data, now: int): IngestMessage
    requires Ingestable(d)
  {
    IngestMessage(folder, LastUid(d.items).value, LastDate(d.items).GetOr(now),
                  KnownFlags(LastFlags(d.items).GetOr([])), None, LastSize(d.items).GetOr(0))
  }

  /**
   The row made of a response, read off its items: the last UID, the known flags of
   the last flag list, the last date or else the time now, the last size or else 0.
   */
  ghost predicate ReadsAs(i: IngestMessage, folder: nat, items: seq<FetchItem>, now: int) {
    && i.folder == folder && i.rawBlob.None?
    && IsLast(items, UidIn, Some(i.uid))
    && (forall f :: f in i.flags <==> exists k, fl :: LastAt(items, FlagsIn, k, fl) && Known(f) in fl)
    && (IsLast(items, DateIn, Some(i.date)) || (i.date == now && IsLast(items, DateIn, None)))
    && (IsLast(items, SizeIn, Some(i.rawSize)) || (i.rawSize == 0 && IsLast(items, SizeIn, None)))
  }

  lemma RowReadsItems(folder: nat, d: Data, now: int)
    requires Ingestable(d)
    ensures ReadsAs(ToIngest(folder, d, now), folder, d.items, now)
  {
    var items, i := d.items, ToIngest(folder, d, now);
    LastItemsCount(items);
    var _ := KnownFlagsExactly(LastFlags(items).GetOr([]));
    forall f ensures f in i.flags <==> exists k, fl :: LastAt(items, FlagsIn, k, fl) && Known(f) in fl {
      if f in i.flags {
        var k :| LastAt(items, FlagsIn, k, LastFlags(items).value);
      }
      if k, fl :| LastAt(items, FlagsIn, k, fl) && Known(f) in fl {
        LastIsUnique(items, FlagsIn, Some(fl), LastFlags(items));
      }
    }
  }

  /** A response makes a row exactly when it is a FETCH with a UID and an envelope among its items. */
  lemma IngestableExactlyWhen(d: Data)
    ensures Ingestable(d) <==>
              d.Fetch? && (exists uid :: UidItem(uid) in d.items) && exists e :: EnvelopeItem(e) in d.items
  {
    if d.Fetch? {
      LastItemsCount(d.items);
    }
  }

  /** The batch of a delta fetch; `clock(k)` is the time read while response k is looked at. */
  function BatchOf(folder: nat, data: seq<Data>, clock: nat -> int): seq<IngestMessage> {
    if data == [] then []
    else
      var rest, last := BatchOf(folder, data[..|data| - 1], clock), data[|data| - 1];
      if Ingestable(last) then rest + [ToIngest(folder, last, clock(|data| - 1))] else rest
  }

  /** The batch is the ingestable responses, in order: `at` gives the response of each message. */
  lemma {:induction false} BatchIsSubsequence(folder: nat, data: seq<Data>, clock: nat -> int) returns (at: seq<nat>)
    ensures |at| == |BatchOf(folder, data, clock)|
    ensures forall i :: 0 <= i < |at| ==>
              at[i] < |data| && Ingestable(data[at[i]])
                && BatchOf(folder, data, clock)[i] == ToIngest(folder, data[at[i]], clock(at[i]))
    ensures forall i, j :: 0 <= i < j < |at| ==> at[i] < at[j]
    ensures forall k :: 0 <= k < |data| && Ingestable(data[k]) ==> k in at
  {
    if data == [] {
      at := [];
    } else {
      var init, last := data[..|data| - 1], data[|data| - 1];
      at := BatchIsSubsequence(folder, init, clock);
      var rest := BatchOf(folder, init, clock);
      if Ingestable(last) {
        assert BatchOf(folder, data, clock) == rest + [ToIngest(folder, last, clock(|data| - 1))];
        at := at + [|data| - 1];
      } else {
        assert BatchOf(folder, data, clock) == rest;
      }
    }
  }

  // ----- Unsolicited data -----

  function FromData(d: Data): seq<Unsolicited> {
    match d
    case Exists(n) => [SawExists(n)]
    case Recent(n) => [SawRecent(n)]
    case Expunge(n) => [SawExpunge(n)]
    case Vanished(uids) => [SawVanished(uids)]
    case Fetch(items) =>
      if LastUid(items).Some? && LastFlags(items).Some? then [SawFlags(LastUid(items).value, LastFlags(items).value)]
      else []
    case Capability(_) => [SawOther("capability")]
    case List(_, _, _) => [SawOther("list")]
    case OtherData(text) => [SawOther(text)]
  }

  lemma ReportsAtMostOne(d: Data)
    ensures |FromData(d)| <= 1
  {
  }

  /**
   What is reported of a response: the counts of EXISTS and RECENT, the number of
   EXPUNGE, the UIDs of VANISHED, a FETCH exactly when it has both a UID and flags,
   and anything else as a text.
   */
  lemma ReportedExactly(d: Data, u: Unsolicited)
    ensures FromData(d) == [u] <==>
              match u
              case SawExists(n) => d == Exists(n)
              case SawRecent(n) => d == Recent(n)
              case SawExpunge(n) => d == Expunge(n)
              case SawVanished(uids) => d == Vanished(uids)
              case SawFlags(uid, fl) =>
                d.Fetch? && IsLast(d.items, UidIn, Some(uid)) && IsLast(d.items, FlagsIn, Some(fl))
              case SawOther(text) =>
                d == OtherData(text) || (d.Capability? && text == "capability") || (d.List? && text == "list")
    ensures FromData(d) == [] <==>
              d.Fetch? && ((forall uid :: UidItem(uid) !in d.items) || forall fl :: FlagsItem(fl) !in d.items)
  {
    if d.Fetch? {
      LastItemsCount(d.items);
      if u.SawFlags? {
        if IsLast(d.items, UidIn, Some(u.uid)) && IsLast(d.items, FlagsIn, Some(u.flags)) {
          LastIsUnique(d.items, UidIn, Some(u.uid), LastUid(d.items));
          LastIsUnique(d.items, FlagsIn, Some(u.flags), LastFlags(d.items));
        }
      }
    }
  }

  /** The UIDs of the flag changes in a list of responses, in order. */
  function FlagUids(data: seq<Data>): seq<U32> {
    if data == [] then []
    else
      var rest, last := FlagUids(data[..|data| - 1]), FromData(data[|data| - 1]);
      if last != [] && last[0].SawFlags? then rest + [last[0].uid] else rest
  }

  /** The UID of a response with flags. */
  function FlagUidIn(d: Data): Option<U32> {
    match d
    case Fetch(items) => if LastFlags(items).Some? then LastUid(items) else None
    case _ => None
  }

  lemma {:induction false} FlagUidsExactly(data: seq<Data>) returns (at: seq<nat>)
    ensures Picks(data, FlagUidIn, FlagUids(data), at)
  {
    at := [];
    if data != [] {
      at := FlagUidsExactly(data[..|data| - 1]);
      LastFlagUid(data);
      at := PicksLast(data, FlagUidIn, FlagUids(data[..|data| - 1]), at);
    }
  }

  lemma LastFlagUid(data: seq<Data>)
    requires data != []
    ensures var init := FlagUids(data[..|data| - 1]);
            FlagUids(data) == match FlagUidIn(data[|data| - 1]) case Some(uid) => init + [uid] case None => init
  {
    FlagReport(data[|data| - 1]);
  }

  lemma FlagReport(d: Data)
    ensures FlagUidIn(d) == if FromData(d) != [] && FromData(d)[0].SawFlags? then Some(FromData(d)[0].uid) else None
  {
  }

  lemma {:induction false} FlagUidsMembers(data: seq<Data>, uid: U32)
    ensures uid in FlagUids(data) <==>
              exists k ::
                && 0 <= k < |data| && data[k].Fetch?
                && LastUid(data[k].items) == Some(uid) && LastFlags(data[k].items).Some?
  {
    if data != [] {
      var init, last := data[..|data| - 1], data[|data| - 1];
      FlagUidsMembers(init, uid);
      assert forall k :: 0 <= k < |init| ==> init[k] == data[k];
      assert data[|data| - 1] == last;
    }
  }
}
