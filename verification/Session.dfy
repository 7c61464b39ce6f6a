/**
 The IMAP session's event loops. The sans-I/O client is an arbitrary source of
 signals: its events, timeouts and broken connections, in any order.
 */
module Session {
  import opened Wrappers
  import opened Store
  import opened Wire
  import Decimal

  datatype Event =
    | CommandSent(handle: nat)
    | CommandRejected(handle: nat, rejection: Status)
    | DataReceived(data: Data)
    | StatusReceived(status: Status)
    | ContinuationRequested
    | IdleCommandSent
    | IdleAccepted
    | IdleDoneSent
    | IdleRejected
    | OtherEvent

  datatype Signal = Ev(event: Event) | TimedOut | Broken

  // ----- What was received -----

  function DataOf(signals: seq<Signal>): seq<Data> {
    if signals == [] then []
    else
      var rest, last := DataOf(signals[..|signals| - 1]), signals[|signals| - 1];
      if last.Ev? && last.event.DataReceived? then rest + [last.event.data] else rest
  }

  function StatusesOf(signals: seq<Signal>): seq<Status> {
    if signals == [] then []
    else
      var rest, last := StatusesOf(signals[..|signals| - 1]), signals[|signals| - 1];
      if last.Ev? && last.event.StatusReceived? then rest + [last.event.status] else rest
  }

  function CapabilitiesOf(data: seq<Data>): set<string> {
    set d, name | d in data && d.Capability? && name in d.capabilities :: name
  }

  /** A capability is known from every capability list it stands in. */
  lemma CapabilitiesExactly(data: seq<Data>, name: string)
    ensures name in CapabilitiesOf(data) <==>
              exists k, names :: 0 <= k < |data| && data[k] == Capability(names) && name in names
  {
    if name in CapabilitiesOf(data) {
      var d :| d in data && d.Capability? && name in d.capabilities;
      var k :| 0 <= k < |data| && data[k] == d;
      assert data[k] == Capability(d.capabilities);
    }
  }

  lemma {:induction false} ReceivedInParts(a: seq<Signal>, b: seq<Signal>)
    ensures DataOf(a + b) == DataOf(a) + DataOf(b)
    ensures StatusesOf(a + b) == StatusesOf(a) + StatusesOf(b)
  {
    if b == [] {
      assert a + b == a;
    } else {
      var init, all := b[..|b| - 1], a + b;
      ReceivedInParts(a, init);
      assert all[..|all| - 1] == a + init && all[|all| - 1] == b[|b| - 1];
    }
  }

  function DataIn(signal: Signal): Option<Data> {
    match signal
    case Ev(DataReceived(d)) => Some(d)
    case _ => None
  }

  function StatusIn(signal: Signal): Option<Status> {
    match signal
    case Ev(StatusReceived(status)) => Some(status)
    case _ => None
  }

  /** Data and statuses are read off the signals that bring them: all of them, in order. */
  lemma {:induction false} ReceivedExactly(signals: seq<Signal>) returns (data: seq<nat>, statuses: seq<nat>)
    ensures Picks(signals, DataIn, DataOf(signals), data)
    ensures Picks(signals, StatusIn, StatusesOf(signals), statuses)
  {
    data, statuses := [], [];
    if signals != [] {
      var init := signals[..|signals| - 1];
      data, statuses := ReceivedExactly(init);
      data := PicksLast(signals, DataIn, DataOf(init), data);
      statuses := PicksLast(signals, StatusIn, StatusesOf(init), statuses);
    }
  }

  // ----- Tags -----

  function Tag(n: nat): string {
    "K" + Decimal.Print(n)
  }

  lemma TagInjective(m: nat, n: nat)
    requires Tag(m) == Tag(n)
    ensures m == n
  {
    assert Tag(m)[1..] == Decimal.Print(m) && Tag(n)[1..] == Decimal.Print(n);
    Decimal.PrintInjective(m, n);
  }

  function StatusTag(s: Status): Option<string> {
    if s.Tagged? then Some(s.tag) else None
  }

  // ----- Executing a command -----

  datatype Failure = CommandTimeout | ConnectionBroken | UnexpectedContinuation

  datatype ExecResult = Done(outcome: CommandOutcome) | Failed(failure: Failure) | Waiting

  /** The signals that end the wait for a command. */
  predicate Ends(signal: Signal, tag: string, handle: nat) {
    match signal
    case TimedOut => true
    case Broken => true
    case Ev(CommandRejected(h, _)) => h == handle
    case Ev(StatusReceived(s)) => StatusTag(s) == Some(tag)
    case Ev(ContinuationRequested) => true
    case Ev(_) => false
  }

  /** Index of the first ending signal, or the length when none has come yet. */
  function EndOf(signals: seq<Signal>, tag: string, handle: nat): (k: nat)
    ensures k <= |signals|
    ensures k < |signals| ==> Ends(signals[k], tag, handle)
    ensures forall i :: 0 <= i < k ==> !Ends(signals[i], tag, handle)
  {
    if signals == [] || Ends(signals[0], tag, handle) then 0 else 1 + EndOf(signals[1..], tag, handle)
  }

  lemma EndsAt(signals: seq<Signal>, tag: string, handle: nat, k: nat)
    requires k <= |signals| && (k < |signals| ==> Ends(signals[k], tag, handle))
    requires forall i :: 0 <= i < k ==> !Ends(signals[i], tag, handle)
    ensures EndOf(signals, tag, handle) == k
  {
  }

  function Used(signals: seq<Signal>, tag: string, handle: nat): nat {
    var k := EndOf(signals, tag, handle);
    if k < |signals| then k + 1 else k
  }

  function ResultOf(signals: seq<Signal>, tag: string, handle: nat): ExecResult {
    var k := EndOf(signals, tag, handle);
    if k == |signals| then Waiting
    else
      var data, untagged := DataOf(signals[..k]), StatusesOf(signals[..k]);
      match signals[k]
      case TimedOut => Failed(CommandTimeout)
      case Broken => Failed(ConnectionBroken)
      case Ev(CommandRejected(_, s)) => Done(CommandOutcome(s, data, untagged))
      case Ev(StatusReceived(s)) => Done(CommandOutcome(s, data, untagged))
      case Ev(_) => Failed(UnexpectedContinuation)
  }

  /** The signal brings the status that completes the command: its own tag, or the rejection of its own handle. */
  predicate Completes(signal: Signal, tag: string, handle: nat, status: Status) {
    || signal == Ev(CommandRejected(handle, status))
    || (signal == Ev(StatusReceived(status)) && status.Tagged? && status.tag == tag)
  }

  /** The signal makes the command fail in this way. */
  predicate Breaks(signal: Signal, failure: Failure) {
    match failure
    case CommandTimeout => signal == TimedOut
    case ConnectionBroken => signal == Broken
    case UnexpectedContinuation => signal == Ev(ContinuationRequested)
  }

  ghost predicate Decides(signal: Signal, tag: string, handle: nat) {
    || signal == TimedOut || signal == Broken || signal == Ev(ContinuationRequested)
    || exists status :: Completes(signal, tag, handle, status)
  }

  /** Signal `k` is the first to decide the command. */
  ghost predicate DecidedAt(signals: seq<Signal>, tag: string, handle: nat, k: nat) {
    && k < |signals| && Decides(signals[k], tag, handle)
    && forall i :: 0 <= i < k ==> !Decides(signals[i], tag, handle)
  }

  ghost predicate CompletedBy(signals: seq<Signal>, tag: string, handle: nat, status: Status) {
    exists k: nat :: DecidedAt(signals, tag, handle, k) && Completes(signals[k], tag, handle, status)
  }

  ghost predicate BrokenBy(signals: seq<Signal>, tag: string, handle: nat, failure: Failure) {
    exists k: nat :: DecidedAt(signals, tag, handle, k) && Breaks(signals[k], failure)
  }

  lemma EndsIsDecides(signal: Signal, tag: string, handle: nat)
    ensures Ends(signal, tag, handle) <==> Decides(signal, tag, handle)
  {
    if Ends(signal, tag, handle) {
      match signal {
        case Ev(CommandRejected(_, status)) => assert Completes(signal, tag, handle, status);
        case Ev(StatusReceived(status)) => assert Completes(signal, tag, handle, status);
        case _ =>
      }
    }
  }

  /**
   When a command is done, for every stream: with status s exactly if the first
   signal that decides it brings s under its own tag or as the rejection of its own
   handle; it fails exactly if that signal is a timeout, a broken connection or a
   continuation request, each in its own way; and it waits exactly if there is none.
   Nothing beyond that signal is consumed.
   */
  lemma ResultExactlyWhen(signals: seq<Signal>, tag: string, handle: nat)
    ensures var r := ResultOf(signals, tag, handle);
            && (forall status ::
                  CompletedBy(signals, tag, handle, status) <==> r.Done? && r.outcome.status == status)
            && (forall failure :: BrokenBy(signals, tag, handle, failure) <==> r == Failed(failure))
            && (r.Waiting? <==> forall k :: 0 <= k < |signals| ==> !Decides(signals[k], tag, handle))
    ensures forall k: nat :: DecidedAt(signals, tag, handle, k) ==> Used(signals, tag, handle) == k + 1
  {
    var r, end := ResultOf(signals, tag, handle), EndOf(signals, tag, handle);
    forall i | 0 <= i < |signals|
      ensures Ends(signals[i], tag, handle) <==> Decides(signals[i], tag, handle)
    {
      EndsIsDecides(signals[i], tag, handle);
    }
    assert forall k: nat :: DecidedAt(signals, tag, handle, k) ==> k == end;
    if end < |signals| {
      assert DecidedAt(signals, tag, handle, end);
      DecidedResult(signals, tag, handle, end);
    }
  }

  lemma DecidedResult(signals: seq<Signal>, tag: string, handle: nat, k: nat)
    requires k < |signals| && EndOf(signals, tag, handle) == k
    ensures var r := ResultOf(signals, tag, handle);
            && !r.Waiting?
            && (forall status :: r.Done? && r.outcome.status == status <==> Completes(signals[k], tag, handle, status))
            && (forall failure :: r == Failed(failure) <==> Breaks(signals[k], failure))
  {
  }

  /**
   Response attribution, for every stream of signals: the status returned bears
   the command's own tag or is the rejection of its own handle, nothing before it
   did, and data and other statuses are those received meanwhile, in order.
   */
  lemma Attribution(signals: seq<Signal>, tag: string, handle: nat)
    requires ResultOf(signals, tag, handle).Done?
    ensures var outcome, n := ResultOf(signals, tag, handle).outcome, Used(signals, tag, handle);
            && 0 < n <= |signals|
            && (signals[n - 1] == Ev(CommandRejected(handle, outcome.status))
                || (signals[n - 1] == Ev(StatusReceived(outcome.status)) && StatusTag(outcome.status) == Some(tag)))
            && outcome.data == DataOf(signals[..n])
            && StatusesOf(signals[..n])
                == outcome.untagged + (if signals[n - 1].event.StatusReceived? then [outcome.status] else [])
            && (forall s :: s in outcome.untagged ==> StatusTag(s) != Some(tag))
  {
    var k := EndOf(signals, tag, handle);
    assert signals[..k + 1][..k] == signals[..k];
    StatusesMembers(signals[..k]);
  }

  lemma {:induction false} StatusesMembers(signals: seq<Signal>)
    ensures forall s :: s in StatusesOf(signals) <==> Ev(StatusReceived(s)) in signals
  {
    if signals != [] {
      StatusesMembers(signals[..|signals| - 1]);
      assert forall x :: x in signals <==> x in signals[..|signals| - 1] || x == signals[|signals| - 1];
    }
  }

  // ----- IDLE -----

  datatype IdleResult = Woke(seen: seq<Unsolicited>) | IdleFailed | IdleWaiting

  /** Everything pushed so far, in order. */
  function Pushed(signals: seq<Signal>): seq<Unsolicited> {
    if signals == [] then []
    else
      var rest, last := Pushed(signals[..|signals| - 1]), signals[|signals| - 1];
      if last.Ev? && last.event.DataReceived? then rest + FromData(last.event.data) else rest
  }

  function ReportIn(signal: Signal): Option<Unsolicited> {
    match signal
    case Ev(DataReceived(d)) => if FromData(d) == [] then None else Some(FromData(d)[0])
    case _ => None
  }

  /** What is pushed are the reports of the data received, in order and none left out. */
  lemma {:induction false} PushedExactly(signals: seq<Signal>) returns (at: seq<nat>)
    ensures Picks(signals, ReportIn, Pushed(signals), at)
  {
    at := [];
    if signals != [] {
      var init := signals[..|signals| - 1];
      at := PushedExactly(init);
      PushedLast(signals);
      at := PicksLast(signals, ReportIn, Pushed(init), at);
    }
  }

  lemma PushedLast(signals: seq<Signal>)
    requires signals != []
    ensures var init := Pushed(signals[..|signals| - 1]);
            Pushed(signals) == match ReportIn(signals[|signals| - 1]) case Some(u) => init + [u] case None => init
  {
    var last := signals[|signals| - 1];
    if last.Ev? && last.event.DataReceived? {
      ReportsAtMostOne(last.event.data);
      OneOrNone(Pushed(signals[..|signals| - 1]), FromData(last.event.data));
    }
  }

  lemma OneOrNone(before: seq<Unsolicited>, report: seq<Unsolicited>)
    requires |report| <= 1
    ensures before + report == if report == [] then before else before + [report[0]]
  {
  }

  /** Something was pushed exactly when some signal brought data that is reported. */
  lemma PushedSomething(signals: seq<Signal>)
    ensures Pushed(signals) != [] <==> exists k :: 0 <= k < |signals| && Reports(signals[k])
  {
    var at := PushedExactly(signals);
    if Pushed(signals) != [] {
      ReportsExactly(signals[at[0]]);
    }
    if k :| 0 <= k < |signals| && Reports(signals[k]) {
      ReportsExactly(signals[k]);
      var i := PickOf(signals, ReportIn, Pushed(signals), at, k);
    }
  }

  /** The signal brings data that is reported: anything but a FETCH without a UID or without flags. */
  ghost predicate Reports(signal: Signal) {
    && signal.Ev? && signal.event.DataReceived?
    && var d := signal.event.data;
       d.Fetch? ==> (exists uid :: UidItem(uid) in d.items) && exists fl :: FlagsItem(fl) in d.items
  }

  lemma ReportsExactly(signal: Signal)
    ensures Reports(signal) <==> ReportIn(signal).Some?
  {
    if signal.Ev? && signal.event.DataReceived? {
      ReportedExactly(signal.event.data, SawExists(0));
    }
  }

  predicate Accepted(signals: seq<Signal>) {
    Ev(IdleAccepted) in signals
  }

  /** A reason to end the IDLE once it is accepted: the window is over, or something was pushed. */
  predicate WantsDone(signals: seq<Signal>, i: nat)
    requires i < |signals|
  {
    signals[i] == TimedOut || (signals[i].Ev? && signals[i].event.DataReceived? && Pushed(signals[..i + 1]) != [])
  }

  /** The same told of the signals alone: a timeout, or data with something reported by then. */
  ghost predicate Reason(signals: seq<Signal>, i: nat)
    requires i < |signals|
  {
    || signals[i] == TimedOut
    || (DataIn(signals[i]).Some? && exists k :: 0 <= k <= i && Reports(signals[k]))
  }

  lemma WantsDoneExactly(signals: seq<Signal>, i: nat)
    requires i < |signals|
    ensures WantsDone(signals, i) <==> Reason(signals, i)
  {
    PushedSomething(signals[..i + 1]);
    assert forall k :: 0 <= k <= i ==> signals[..i + 1][k] == signals[k];
  }

  /** From here on DONE counts as sent. */
  predicate MarksDone(signals: seq<Signal>, i: nat)
    requires i < |signals|
  {
    signals[i] == Ev(IdleDoneSent) || (Accepted(signals[..i]) && WantsDone(signals, i))
  }

  predicate DoneSent(signals: seq<Signal>) {
    exists i :: 0 <= i < |signals| && MarksDone(signals, i)
  }

  /** DONE is asked for at signal `i`. */
  predicate RequestsDone(signals: seq<Signal>, i: nat)
    requires i < |signals|
  {
    Accepted(signals[..i]) && !DoneSent(signals[..i]) && WantsDone(signals, i)
  }

  /** The signals that end the IDLE wait; `doneOk` says whether a request for DONE is taken. */
  predicate IdleEnds(signals: seq<Signal>, i: nat, doneOk: bool)
    requires i < |signals|
  {
    || signals[i] == Broken
    || signals[i] == Ev(IdleRejected)
    || (signals[i] == TimedOut && (!Accepted(signals[..i]) || DoneSent(signals[..i])))
    || (signals[i].Ev? && signals[i].event.StatusReceived? && Accepted(signals[..i]))
    || (RequestsDone(signals, i) && !doneOk)
  }

  /** DONE is under way before signal `i`: it was reported as sent, or a reason for it came up once accepted. */
  ghost predicate UnderWay(signals: seq<Signal>, i: nat)
    requires i <= |signals|
  {
    || Ev(IdleDoneSent) in signals[..i]
    || exists j :: 0 <= j < i && Ev(IdleAccepted) in signals[..j] && Reason(signals, j)
  }

  /**
   What ends the wait, told of the signals alone: a broken connection, a rejection, a
   timeout before acceptance or with DONE under way, a status once accepted, or a
   reason for DONE that the client does not take. Data is returned only for a timeout
   before acceptance and for a status after it.
   */
  lemma IdleEndsExactly(signals: seq<Signal>, i: nat, doneOk: bool)
    requires i < |signals|
    ensures var accepted := Ev(IdleAccepted) in signals[..i];
            IdleEnds(signals, i, doneOk) <==>
              || signals[i] == Broken || signals[i] == Ev(IdleRejected)
              || (signals[i] == TimedOut && (!accepted || UnderWay(signals, i)))
              || (StatusIn(signals[i]).Some? && accepted)
              || (accepted && !doneOk && Reason(signals, i) && !UnderWay(signals, i))
    ensures var accepted := Ev(IdleAccepted) in signals[..i];
            IdleReturns(signals, i) <==> if accepted then StatusIn(signals[i]).Some? else signals[i] == TimedOut
  {
    WantsDoneExactly(signals, i);
    DoneSentExactly(signals, i);
  }

  lemma DoneSentExactly(signals: seq<Signal>, i: nat)
    requires i <= |signals|
    ensures DoneSent(signals[..i]) <==> UnderWay(signals, i)
  {
    var p := signals[..i];
    forall j | 0 <= j < i
      ensures MarksDone(p, j) <==> signals[j] == Ev(IdleDoneSent) || (Accepted(signals[..j]) && Reason(signals, j))
    {
      assert p[..j] == signals[..j] && p[..j + 1] == signals[..j + 1];
      WantsDoneExactly(signals, j);
    }
    if Ev(IdleDoneSent) in p {
      var j :| 0 <= j < |p| && p[j] == Ev(IdleDoneSent);
      assert MarksDone(p, j);
    }
    if j :| 0 <= j < i && Ev(IdleAccepted) in signals[..j] && Reason(signals, j) {
      assert MarksDone(p, j);
    }
  }

  /** An IDLE returns its data only for a timeout before acceptance or a status after it. */
  predicate IdleReturns(signals: seq<Signal>, i: nat)
    requires i < |signals|
  {
    || (signals[i] == TimedOut && !Accepted(signals[..i]))
    || (signals[i].Ev? && signals[i].event.StatusReceived? && Accepted(signals[..i]))
  }

  /** However the signals fall, DONE is requested at most once, and never before acceptance. */
  lemma DoneRequestedOnce(signals: seq<Signal>, i: nat, j: nat)
    requires i < |signals| && j < |signals| && RequestsDone(signals, i) && RequestsDone(signals, j)
    ensures i == j && Ev(IdleAccepted) in signals[..i]
  {
    if i < j {
      RequestMarks(signals, i, j);
    } else if j < i {
      RequestMarks(signals, j, i);
    }
  }

  /** The IDLE returns its data at signal `n - 1`, and nothing ended it before. */
  ghost predicate ReturnsAfter(signals: seq<Signal>, n: nat, doneOk: bool) {
    && 0 < n <= |signals| && IdleReturns(signals, n - 1)
    && forall i :: 0 <= i < n - 1 ==> !IdleEnds(signals, i, doneOk)
  }

  /** Once accepted, a reason for DONE came up before the client reported one as sent. */
  ghost predicate CalledForDone(signals: seq<Signal>, n: nat)
    requires n <= |signals|
  {
    exists i ::
      0 <= i < n && Ev(IdleAccepted) in signals[..i] && Reason(signals, i) && Ev(IdleDoneSent) !in signals[..i]
  }

  ghost predicate RequestedDone(signals: seq<Signal>, n: nat)
    requires n <= |signals|
  {
    exists i :: 0 <= i < n && RequestsDone(signals, i)
  }

  /**
   Whether an IDLE that returns has asked for DONE: exactly when a status ended it
   and a reason for DONE had come up after acceptance. In particular no DONE goes
   out for a timeout before acceptance, nor for a status that comes first.
   */
  lemma DoneRequestedExactlyWhen(signals: seq<Signal>, n: nat, doneOk: bool)
    requires ReturnsAfter(signals, n, doneOk)
    ensures RequestedDone(signals, n) <==>
              signals[n - 1].Ev? && signals[n - 1].event.StatusReceived? && CalledForDone(signals, n - 1)
  {
    if RequestedDone(signals, n) {
      var i :| 0 <= i < n && RequestsDone(signals, i);
      NotSentBefore(signals, i);
      assert i < n - 1;
      assert signals[..i] <= signals[..n - 1];
      WantsDoneExactly(signals, i);
    }
    if CalledForDone(signals, n - 1) {
      var i :| 0 <= i < n - 1 && Ev(IdleAccepted) in signals[..i] && Reason(signals, i)
               && Ev(IdleDoneSent) !in signals[..i];
      WantsDoneExactly(signals, i);
      var k := FirstReason(signals, i);
    }
  }

  /** A request comes before any DONE is reported as sent. */
  lemma NotSentBefore(signals: seq<Signal>, i: nat)
    requires i < |signals| && RequestsDone(signals, i)
    ensures Ev(IdleDoneSent) !in signals[..i]
  {
    var p := signals[..i];
    forall k | 0 <= k < i
      ensures p[k] != Ev(IdleDoneSent)
    {
      assert !MarksDone(p, k);
    }
  }

  /** The first reason for DONE after acceptance is the one it is requested for. */
  lemma {:induction false} FirstReason(signals: seq<Signal>, i: nat) returns (k: nat)
    requires i < |signals| && Accepted(signals[..i]) && WantsDone(signals, i) && Ev(IdleDoneSent) !in signals[..i]
    ensures k <= i && RequestsDone(signals, k)
  {
    var p := signals[..i];
    if DoneSent(p) {
      var j :| 0 <= j < |p| && MarksDone(p, j);
      assert p[j] in p && p[..j] == signals[..j] && p[..j + 1] == signals[..j + 1];
      assert forall x :: x in signals[..j] ==> x in p;
      k := FirstReason(signals, j);
    } else {
      k := i;
    }
  }

  /** The two ways to return with DONE never requested, whatever else the stream holds. */
  lemma DoneMayBeSkipped(signals: seq<Signal>, n: nat, doneOk: bool)
    requires ReturnsAfter(signals, n, doneOk)
    ensures signals[n - 1] == TimedOut ==> !RequestedDone(signals, n)
    ensures (forall i :: 0 <= i < n - 1 && Accepted(signals[..i]) ==>
               signals[i] != TimedOut && Pushed(signals[..i + 1]) == []) ==>
              !RequestedDone(signals, n)
  {
    DoneRequestedExactlyWhen(signals, n, doneOk);
    forall i | 0 <= i < n
      ensures WantsDone(signals, i) <==> Reason(signals, i)
    {
      WantsDoneExactly(signals, i);
    }
  }

  /** The streams that show it: a timeout before acceptance, and a status right after it. */
  lemma SkippedStreams(status: Status, doneOk: bool)
    ensures ReturnsAfter([TimedOut], 1, doneOk) && !RequestedDone([TimedOut], 1)
    ensures var late := [Ev(IdleAccepted), Ev(StatusReceived(status))];
            ReturnsAfter(late, 2, doneOk) && !RequestedDone(late, 2)
  {
    var late := [Ev(IdleAccepted), Ev(StatusReceived(status))];
    assert late[..1] == [Ev(IdleAccepted)] && late[..0] == [];
    DoneMayBeSkipped([TimedOut], 1, doneOk);
    assert ReturnsAfter(late, 2, doneOk);
    DoneMayBeSkipped(late, 2, doneOk);
  }

  lemma RequestMarks(signals: seq<Signal>, i: nat, j: nat)
    requires i < |signals| && j <= |signals| && RequestsDone(signals, i) && i < j
    ensures DoneSent(signals[..j])
  {
    var p := signals[..j];
    assert p[..i] == signals[..i] && p[..i + 1] == signals[..i + 1];
    assert MarksDone(p, i);
  }

  // ----- The session -----

  class ImapSession {
    var tagCounter: nat
    var capabilities: set<string>
    /** Commands handed to the client so far; the count stands for their handles. */
    var enqueued: nat
    ghost var issued: seq<string>

    /** The tags issued over the life of the connection are those of 1, 2, 3 and so on. */
    ghost predicate Valid()
      reads this
    {
      |issued| == tagCounter && forall i :: 0 <= i < |issued| ==> issued[i] == Tag(i + 1)
    }

    constructor ()
      ensures Valid() && tagCounter == 0 && capabilities == {} && issued == []
    {
      tagCounter, capabilities, enqueued, issued := 0, {}, 0, [];
    }

    /** The session over the upgraded transport goes on counting where the plain one stopped. */
    constructor Upgrade(plain: ImapSession)
      requires plain.Valid()
      ensures Valid() && issued == plain.issued && tagCounter == plain.tagCounter
      ensures capabilities == plain.capabilities && enqueued == plain.enqueued
    {
      tagCounter, capabilities, enqueued, issued := plain.tagCounter, plain.capabilities, plain.enqueued, plain.issued;
    }

    method NextTag() returns (tag: string)
      requires Valid()
      modifies `tagCounter, `issued
      ensures Valid() && issued == old(issued) + [tag] && tag !in old(issued)
    {
      tagCounter := tagCounter + 1;
      tag := "K" + Decimal.Print(tagCounter);
      forall i | 0 <= i < |issued|
        ensures issued[i] != tag
      {
        if Tag(i + 1) == Tag(tagCounter) {
          TagInjective(i + 1, tagCounter);
        }
      }
      issued := issued + [tag];
    }

    method AbsorbCapabilities(d: Data)
      modifies `capabilities
      ensures capabilities == old(capabilities) + CapabilitiesOf([d])
    {
      if d.Capability? {
        capabilities := capabilities + (set name | name in d.capabilities);
      }
    }

    method Execute(signals: seq<Signal>) returns (r: ExecResult, used: nat)
      requires Valid()
      modifies this
      ensures Valid() && issued == old(issued) + [Tag(tagCounter)] && enqueued == old(enqueued) + 1
      ensures r == ResultOf(signals, Tag(tagCounter), old(enqueued))
              && used == Used(signals, Tag(tagCounter), old(enqueued))
      ensures capabilities == old(capabilities) + CapabilitiesOf(DataOf(signals[..used]))
    {
      var tag := NextTag();
      assert tag == issued[|issued| - 1] == Tag(tagCounter);
      var handle := enqueued;
      enqueued := enqueued + 1;
      var data: seq<Data>, untagged: seq<Status> := [], [];
      used := 0;
      while used < |signals|
        invariant 0 <= used <= |signals|
        invariant forall i :: 0 <= i < used ==> !Ends(signals[i], tag, handle)
        invariant data == DataOf(signals[..used]) && untagged == StatusesOf(signals[..used])
        invariant capabilities == old(capabilities) + CapabilitiesOf(DataOf(signals[..used]))
        modifies `capabilities
      {
        assert signals[..used + 1][..used] == signals[..used];
        var signal := signals[used];
        if Ends(signal, tag, handle) {
          EndsAt(signals, tag, handle, used);
        }
        used := used + 1;
        match signal {
          case TimedOut =>
            return Failed(CommandTimeout), used;
          case Broken =>
            return Failed(ConnectionBroken), used;
          case Ev(CommandRejected(h, status)) =>
            if h == handle {
              return Done(CommandOutcome(status, data, untagged)), used;
            }
          case Ev(DataReceived(d)) =>
            AbsorbCapabilities(d);
            data := data + [d];
          case Ev(StatusReceived(status)) =>
            if StatusTag(status) == Some(tag) {
              return Done(CommandOutcome(status, data, untagged)), used;
            }
            untagged := untagged + [status];
          case Ev(ContinuationRequested) =>
            return Failed(UnexpectedContinuation), used;
          case Ev(_) =>
        }
      }
      EndsAt(signals, tag, handle, used);
      r := Waiting;
    }

    /**
     Waits in IDLE. `asked` lists the signals at which DONE was requested from the
     client, which takes the request when `doneOk`.
     */
    method Idle(signals: seq<Signal>, doneOk: bool) returns (r: IdleResult, used: nat, asked: seq<int>)
      requires Valid()
      modifies `tagCounter, `issued, `enqueued
      ensures Valid() && issued == old(issued) + [Tag(tagCounter)]
      ensures used <= |signals| && forall i :: 0 <= i < used - 1 ==> !IdleEnds(signals, i, doneOk)
      ensures r.IdleWaiting? ==> used == |signals| && forall i :: 0 <= i < |signals| ==> !IdleEnds(signals, i, doneOk)
      ensures !r.IdleWaiting? ==> used > 0 && IdleEnds(signals, used - 1, doneOk)
      ensures r.Woke? <==> used > 0 && IdleReturns(signals, used - 1)
      ensures r.Woke? ==> r.seen == Pushed(signals[..used])
      ensures |asked| <= 1 && AskedExactly(signals, used, asked)
      ensures r.Woke? ==>
                (asked != [] <==>
                   && signals[used - 1].Ev? && signals[used - 1].event.StatusReceived?
                   && CalledForDone(signals, used - 1))
    {
      var _ := NextTag();
      enqueued := enqueued + 1;
      r, used, asked := AwaitIdle(signals, doneOk);
      if r.Woke? {
        DoneRequestedExactlyWhen(signals, used, doneOk);
        AskedIsRequested(signals, used, asked);
      }
    }

    /** The waiting loop of `Idle`. */
    method AwaitIdle(signals: seq<Signal>, doneOk: bool) returns (r: IdleResult, used: nat, asked: seq<int>)
      ensures used <= |signals|
      ensures r.IdleWaiting? ==> used == |signals| && Quiet(signals, used, doneOk)
      ensures !r.IdleWaiting? ==> used > 0 && Quiet(signals, used - 1, doneOk) && IdleEnds(signals, used - 1, doneOk)
      ensures r.Woke? <==> used > 0 && IdleReturns(signals, used - 1)
      ensures r.Woke? ==> r.seen == Pushed(signals[..used])
      ensures |asked| <= 1 && AskedExactly(signals, used, asked)
    {
      var unsolicited: seq<Unsolicited> := [];
      var accepted, doneSent := false, false;
      used, asked := 0, [];
      while used < |signals|
        invariant 0 <= used <= |signals|
        invariant Quiet(signals, used, doneOk)
        invariant unsolicited == Pushed(signals[..used])
        invariant accepted == Accepted(signals[..used]) && doneSent == DoneSent(signals[..used])
        invariant |asked| <= (if doneSent then 1 else 0) && AskedExactly(signals, used, asked)
        modifies {}
      {
        ghost var k := used;
        QuietStep(signals, k, doneOk);
        AskedStep(signals, k, asked);
        DoneSentStep(signals, k);
        PushedStep(signals, k);
        IdleSignal(signals, k, doneOk, accepted, doneSent);
        var signal := signals[used];
        used := used + 1;
        match signal {
          case TimedOut =>
            if !accepted {
              return Woke(unsolicited), used, asked;
            }
            if !doneSent {
              asked := asked + [used - 1];
              if !doneOk {
                return IdleFailed, used, asked;
              }
              doneSent := true;
            } else {
              return IdleFailed, used, asked;
            }
          case Broken =>
            return IdleFailed, used, asked;
          case Ev(IdleAccepted) =>
            accepted := true;
          case Ev(IdleDoneSent) =>
            doneSent := true;
          case Ev(IdleRejected) =>
            return IdleFailed, used, asked;
          case Ev(DataReceived(d)) =>
            unsolicited := unsolicited + FromData(d);
            if accepted && !doneSent && unsolicited != [] {
              asked := asked + [used - 1];
              if !doneOk {
                return IdleFailed, used, asked;
              }
              doneSent := true;
            }
          case Ev(StatusReceived(_)) =>
            if accepted {
              return Woke(unsolicited), used, asked;
            }
          case Ev(_) =>
        }
      }
      QuietDoesNotReturn(signals, used, doneOk);
      r := IdleWaiting;
    }
  }

  /** None of the first `n` signals ends the wait. */
  ghost predicate Quiet(signals: seq<Signal>, n: nat, doneOk: bool)
    requires n <= |signals|
  {
    forall i :: 0 <= i < n ==> !IdleEnds(signals, i, doneOk)
  }

  lemma QuietStep(signals: seq<Signal>, k: nat, doneOk: bool)
    requires k < |signals| && Quiet(signals, k, doneOk)
    ensures Quiet(signals, k + 1, doneOk) <==> !IdleEnds(signals, k, doneOk)
  {
  }

  lemma QuietDoesNotReturn(signals: seq<Signal>, n: nat, doneOk: bool)
    requires n <= |signals| && Quiet(signals, n, doneOk)
    ensures n > 0 ==> !IdleReturns(signals, n - 1)
  {
    assert n > 0 ==> !IdleEnds(signals, n - 1, doneOk);
  }

  /** DONE was requested at these of the first `n` signals. */
  ghost predicate AskedExactly(signals: seq<Signal>, n: nat, asked: seq<int>)
    requires n <= |signals|
  {
    forall i :: i in asked <==> 0 <= i < n && RequestsDone(signals, i)
  }

  lemma AskedIsRequested(signals: seq<Signal>, n: nat, asked: seq<int>)
    requires n <= |signals| && AskedExactly(signals, n, asked)
    ensures asked != [] <==> RequestedDone(signals, n)
  {
    if asked != [] {
      var i := asked[0];
      assert i in asked;
      assert 0 <= i < n && RequestsDone(signals, i);
    }
    if RequestedDone(signals, n) {
      var i :| 0 <= i < n && RequestsDone(signals, i);
      assert i in asked;
    }
  }

  lemma AskedStep(signals: seq<Signal>, k: nat, asked: seq<int>)
    requires k < |signals| && AskedExactly(signals, k, asked)
    ensures AskedExactly(signals, k + 1, if RequestsDone(signals, k) then asked + [k as int] else asked)
  {
  }

  /** What the next signal means, given what is known of those before it. */
  lemma IdleSignal(signals: seq<Signal>, k: nat, doneOk: bool, accepted: bool, doneSent: bool)
    requires k < |signals| && accepted == Accepted(signals[..k]) && doneSent == DoneSent(signals[..k])
    ensures RequestsDone(signals, k) <==> accepted && !doneSent && WantsDone(signals, k)
    ensures MarksDone(signals, k) <==> signals[k] == Ev(IdleDoneSent) || (accepted && WantsDone(signals, k))
    ensures IdleEnds(signals, k, doneOk) <==>
              match signals[k]
              case TimedOut => !accepted || doneSent || !doneOk
              case Broken => true
              case Ev(IdleRejected) => true
              case Ev(StatusReceived(_)) => accepted
              case _ => RequestsDone(signals, k) && !doneOk
  {
  }

  lemma PushedStep(signals: seq<Signal>, k: nat)
    requires k < |signals|
    ensures Accepted(signals[..k + 1]) <==> Accepted(signals[..k]) || signals[k] == Ev(IdleAccepted)
    ensures Pushed(signals[..k + 1]) == Pushed(signals[..k])
              + if signals[k].Ev? && signals[k].event.DataReceived? then FromData(signals[k].event.data) else []
  {
    assert signals[..k + 1][..k] == signals[..k];
  }

  lemma DoneSentStep(signals: seq<Signal>, k: nat)
    requires k < |signals|
    ensures DoneSent(signals[..k + 1]) <==> DoneSent(signals[..k]) || MarksDone(signals, k)
  {
    var p, q := signals[..k], signals[..k + 1];
    forall i | 0 <= i < k
      ensures MarksDone(q, i) <==> MarksDone(p, i)
    {
      assert q[..i] == p[..i] && q[..i + 1] == p[..i + 1];
    }
    assert q[..k] == signals[..k] && q[..k + 1] == signals[..k + 1];
    assert MarksDone(q, k) <==> MarksDone(signals, k);
  }

  // ----- Conversations -----

  /**
   The results of `n` commands executed one after the other on one stream, the
   first with counter value `counter + 1`; `tags` makes a tag from a counter value.
   */
  function Conversation(tags: nat -> string, signals: seq<Signal>, counter: nat, handle: nat,
                        n: nat): (rs: seq<ExecResult>)
    ensures |rs| == n
    decreases n
  {
    if n == 0 then []
    else
      [ResultOf(signals, tags(counter + 1), handle)]
      + Conversation(tags, signals[Used(signals, tags(counter + 1), handle)..], counter + 1, handle + 1, n - 1)
  }

  /** How much of the stream those commands consume. */
  function Consumed(tags: nat -> string, signals: seq<Signal>, counter: nat, handle: nat, n: nat): (k: nat)
    ensures k <= |signals|
    decreases n
  {
    if n == 0 then 0
    else
      var used := Used(signals, tags(counter + 1), handle);
      used + Consumed(tags, signals[used..], counter + 1, handle + 1, n - 1)
  }

  function AllData(results: seq<ExecResult>): seq<Data> {
    if results == [] then []
    else (if results[0].Done? then results[0].outcome.data else []) + AllData(results[1..])
  }

  predicate AllDone(results: seq<ExecResult>) {
    forall i :: 0 <= i < |results| ==> results[i].Done?
  }

  /** Conservation: while no command fails, every piece of data received is handed on, once and in order. */
  lemma {:induction false} ConversationConserves(tags: nat -> string, signals: seq<Signal>, counter: nat,
                                                 handle: nat, n: nat)
    requires AllDone(Conversation(tags, signals, counter, handle, n))
    ensures AllData(Conversation(tags, signals, counter, handle, n))
            == DataOf(signals[..Consumed(tags, signals, counter, handle, n)])
    decreases n
  {
    if n > 0 {
      var used := Used(signals, tags(counter + 1), handle);
      FirstIsDone(tags, signals, counter, handle, n);
      ConversationConserves(tags, signals[used..], counter + 1, handle + 1, n - 1);
      FirstConserves(tags, signals, counter, handle, n, used);
    }
  }

  lemma FirstIsDone(tags: nat -> string, signals: seq<Signal>, counter: nat, handle: nat, n: nat)
    requires n > 0 && AllDone(Conversation(tags, signals, counter, handle, n))
    ensures ResultOf(signals, tags(counter + 1), handle).Done?
    ensures AllDone(Conversation(tags, signals[Used(signals, tags(counter + 1), handle)..], counter + 1, handle + 1,
                                 n - 1))
  {
    var used := Used(signals, tags(counter + 1), handle);
    DoneParts(ResultOf(signals, tags(counter + 1), handle),
              Conversation(tags, signals[used..], counter + 1, handle + 1, n - 1));
  }

  lemma FirstConserves(tags: nat -> string, signals: seq<Signal>, counter: nat, handle: nat, n: nat, used: nat)
    requires n > 0 && used == Used(signals, tags(counter + 1), handle)
             && ResultOf(signals, tags(counter + 1), handle).Done?
    requires var rest, k := Conversation(tags, signals[used..], counter + 1, handle + 1, n - 1),
             Consumed(tags, signals[used..], counter + 1, handle + 1, n - 1);
             AllData(rest) == DataOf(signals[used..][..k])
    ensures AllData(Conversation(tags, signals, counter, handle, n))
            == DataOf(signals[..Consumed(tags, signals, counter, handle, n)])
  {
    var rest, k := Conversation(tags, signals[used..], counter + 1, handle + 1, n - 1),
        Consumed(tags, signals[used..], counter + 1, handle + 1, n - 1);
    OwnData(signals, tags(counter + 1), handle);
    ConservesStep(signals, used, k, ResultOf(signals, tags(counter + 1), handle), rest,
                  Conversation(tags, signals, counter, handle, n), Consumed(tags, signals, counter, handle, n));
  }

  lemma DoneParts(first: ExecResult, rest: seq<ExecResult>)
    requires AllDone([first] + rest)
    ensures first.Done? && AllDone(rest)
  {
    var all := [first] + rest;
    assert all[0] == first && forall i :: 0 <= i < |rest| ==> all[i + 1] == rest[i];
  }

  lemma OwnData(signals: seq<Signal>, tag: string, handle: nat)
    requires ResultOf(signals, tag, handle).Done?
    ensures ResultOf(signals, tag, handle).outcome.data == DataOf(signals[..Used(signals, tag, handle)])
  {
    Attribution(signals, tag, handle);
  }

  lemma ConservesStep(signals: seq<Signal>, used: nat, k: nat, first: ExecResult, rest: seq<ExecResult>,
                      all: seq<ExecResult>, consumed: nat)
    requires consumed == used + k <= |signals| && all == [first] + rest
    requires first.Done? && first.outcome.data == DataOf(signals[..used])
    requires AllData(rest) == DataOf(signals[used..][..k])
    ensures AllData(all) == DataOf(signals[..consumed])
  {
    assert all[1..] == rest;
    ReceivedInParts(signals[..used], signals[used..][..k]);
    assert signals[..used + k] == signals[..used] + signals[used..][..k];
  }

  lemma OldTagNeverCompletes(signals: seq<Signal>, counter: nat, handle: nat, earlier: nat)
    requires 0 < earlier <= counter
    ensures var r := ResultOf(signals, Tag(counter + 1), handle);
            r.Done? && StatusTag(r.outcome.status) == Some(Tag(earlier)) ==>
              Ev(CommandRejected(handle, r.outcome.status)) in signals
  {
    var tag := Tag(counter + 1);
    if ResultOf(signals, tag, handle).Done? {
      Attribution(signals, tag, handle);
      if Tag(earlier) == tag {
        TagInjective(earlier, counter + 1);
      }
    }
  }

  /**
   A late tagged status of an earlier command never completes a later one, whether
   or not commands in between timed out: only a rejection of the later command's
   own handle could hand over a status with that tag.
   */
  lemma LateStatusNeverCompletes(signals: seq<Signal>, counter: nat, handle: nat, n: nat, earlier: nat, i: nat)
    requires 0 < earlier <= counter + i && i < n
    ensures var r := Conversation(Tag, signals, counter, handle, n)[i];
            r.Done? && StatusTag(r.outcome.status) == Some(Tag(earlier)) ==>
              Ev(CommandRejected(handle + i, r.outcome.status)) in signals
  {
    var later := NthResult(Tag, signals, counter, handle, n, i, counter + 1 + i, handle + i);
    OldTagNeverCompletes(later, counter + i, handle + i, earlier);
  }

  /** Command number `i` runs on what its predecessors left of the stream. */
  lemma {:induction false} NthResult(tags: nat -> string, signals: seq<Signal>, counter: nat, handle: nat, n: nat,
                                     i: nat, c: nat, h: nat)
    returns (later: seq<Signal>)
    requires i < n && c == counter + 1 + i && h == handle + i
    ensures forall x :: x in later ==> x in signals
    ensures Conversation(tags, signals, counter, handle, n)[i] == ResultOf(later, tags(c), h)
    decreases n
  {
    var tag, all := tags(counter + 1), Conversation(tags, signals, counter, handle, n);
    var rest := signals[Used(signals, tag, handle)..];
    var others := Conversation(tags, rest, counter + 1, handle + 1, n - 1);
    assert all == [ResultOf(signals, tag, handle)] + others;
    if i == 0 {
      later := signals;
    } else {
      later := NthResult(tags, rest, counter + 1, handle + 1, n - 1, i - 1, c, h);
      assert forall x :: x in rest ==> x in signals;
      assert all[i] == others[i - 1];
    }
  }
}
