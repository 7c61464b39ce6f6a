/**
 The outer loop of the sync service: connect, sync, poll or idle, and reconnect
 with backoff. What happens in a cycle is a script of outcomes; the functions say
 which connection states a script emits and which waits it makes, the class
 `SyncRunner` is the loop itself.
 */
module RunLoop {
  import opened Wrappers
  import opened ReferenceStore

  // ----- Scripts -----

  /** One folder of a sweep: whether a cancellation arrives before it, and whether its pass ends well. */
  datatype FolderTry = FolderTry(cancelFirst: bool, ok: bool)

  datatype IdleOutcome = IdleFails | IdleEmpty | IdleWoke

  /** One turn of the poll or IDLE loop. */
  datatype Round = Round(cancelFirst: bool, idle: IdleOutcome, cancelAfter: bool, sweep: seq<FolderTry>)

  datatype CycleScript = CycleScript(connects: bool, lists: bool, busOpen: bool, sweep: seq<FolderTry>, polls: bool,
                                     rounds: seq<Round>)

  datatype Attempt = Attempt(cancelFirst: bool, cycle: CycleScript, cancelInWait: bool)

  /** `Running`: the script ends before the call returns. */
  datatype CycleEnd = EndedOk | EndedErr | Running

  datatype SweepEnd = SweptAll | SweepCancelled | SweepFailed

  // ----- What a script does -----

  datatype SweepOutcome = SweepOutcome(end: SweepEnd, cancelled: bool)

  datatype CycleOutcome = CycleOutcome(end: CycleEnd, states: seq<ConnectionState>, cancelled: bool)

  datatype RunOutcome = RunOutcome(returned: bool, states: seq<ConnectionState>, waits: seq<nat>, cancelled: bool)

  function After(states: seq<ConnectionState>, rest: CycleOutcome): CycleOutcome {
    rest.(states := states + rest.states)
  }

  function Sweep(sweep: seq<FolderTry>, cancelled: bool): SweepOutcome {
    if sweep == [] then SweepOutcome(SweptAll, cancelled)
    else if cancelled || sweep[0].cancelFirst then SweepOutcome(SweepCancelled, true)
    else if !sweep[0].ok then SweepOutcome(SweepFailed, false)
    else Sweep(sweep[1..], false)
  }

  /** A sweep that was announced by Syncing, and what is announced when it goes through. */
  function Resync(sweep: seq<FolderTry>, then_: seq<ConnectionState>): CycleOutcome {
    var swept := Sweep(sweep, false);
    match swept.end
    case SweepCancelled => CycleOutcome(EndedOk, [Syncing], swept.cancelled)
    case SweepFailed => CycleOutcome(EndedErr, [Syncing], swept.cancelled)
    case SweptAll => CycleOutcome(Running, [Syncing] + then_, swept.cancelled)
  }

  function PollTurn(round: Round, cancelled: bool): CycleOutcome {
    if cancelled || round.cancelFirst then CycleOutcome(EndedOk, [], true)
    else Resync(round.sweep, [])
  }

  function IdleTurn(round: Round, cancelled: bool): CycleOutcome {
    if cancelled || round.cancelFirst then CycleOutcome(EndedOk, [], true)
    else if round.idle == IdleFails then CycleOutcome(EndedErr, [], false)
    else if round.cancelAfter then CycleOutcome(EndedOk, [], true)
    else if round.idle == IdleEmpty then CycleOutcome(Running, [], false)
    else Resync(round.sweep, [Idle])
  }

  function Turn(polls: bool, round: Round, cancelled: bool): CycleOutcome {
    if polls then PollTurn(round, cancelled) else IdleTurn(round, cancelled)
  }

  /** The poll or IDLE loop: turns until one of them ends the cycle. */
  function Dwell(polls: bool, rounds: seq<Round>, cancelled: bool): CycleOutcome {
    if rounds == [] then CycleOutcome(Running, [], cancelled)
    else
      var turn := Turn(polls, rounds[0], cancelled);
      if turn.end == Running then After(turn.states, Dwell(polls, rounds[1..], turn.cancelled)) else turn
  }

  function Cycle(script: CycleScript, cancelled: bool): CycleOutcome {
    if !script.connects then CycleOutcome(EndedErr, [Connecting], cancelled)
    else
      var opening := [Connecting, Authenticating, Syncing];
      if !script.lists || !script.busOpen then CycleOutcome(EndedErr, opening, cancelled)
      else
        var swept := Sweep(script.sweep, cancelled);
        match swept.end
        case SweepCancelled => CycleOutcome(EndedOk, opening, swept.cancelled)
        case SweepFailed => CycleOutcome(EndedErr, opening, swept.cancelled)
        case SweptAll =>
          After(if script.polls then opening else opening + [Idle], Dwell(script.polls, script.rounds, swept.cancelled))
  }

  /** One turn of the outer loop: `stops` tells whether the run returns or is still in a cycle. */
  datatype AttemptOutcome = AttemptOutcome(stops: Option<bool>, states: seq<ConnectionState>, waits: seq<nat>,
                                           cancelled: bool)

  function Try(attempt: Attempt, cycle: CycleOutcome, failures: nat, cancelled: bool): AttemptOutcome {
    if cancelled || attempt.cancelFirst then AttemptOutcome(Some(true), [], [], true)
    else
      match cycle.end
      case Running => AttemptOutcome(Some(false), cycle.states, [], cycle.cancelled)
      case EndedOk => AttemptOutcome(None, cycle.states, [], cycle.cancelled)
      case EndedErr =>
        var stopped := cycle.cancelled || attempt.cancelInWait;
        AttemptOutcome(if stopped then Some(true) else None, cycle.states + [Disconnected], [BackoffMs(failures)],
                       stopped)
  }

  /** What each attempt's cycle does; a cycle is only started when not cancelled. */
  function Cycles(attempts: seq<Attempt>): (cs: seq<CycleOutcome>)
    ensures |cs| == |attempts| && forall i :: 0 <= i < |cs| ==> cs[i] == Cycle(attempts[i].cycle, false)
  {
    if attempts == [] then [] else [Cycle(attempts[0].cycle, false)] + Cycles(attempts[1..])
  }

  /** `failures` cycles have failed before; each failed cycle waits by the closed form. */
  function Ran(attempts: seq<Attempt>, cycles: seq<CycleOutcome>, failures: nat, cancelled: bool): RunOutcome
    requires |cycles| == |attempts|
  {
    if attempts == [] then RunOutcome(false, [], [], cancelled)
    else
      var t := Try(attempts[0], cycles[0], failures, cancelled);
      if t.stops.Some? then RunOutcome(t.stops.value, t.states, t.waits, t.cancelled)
      else Join(t.states, t.waits, Ran(attempts[1..], cycles[1..], failures + |t.waits|, t.cancelled))
  }

  /** What a run over a list of scripts does from the start. */
  function RunOf(attempts: seq<Attempt>, cancelled: bool): RunOutcome {
    Ran(attempts, Cycles(attempts), 0, cancelled)
  }

  function Join(states: seq<ConnectionState>, waits: seq<nat>, rest: RunOutcome): RunOutcome {
    rest.(states := states + rest.states, waits := waits + rest.waits)
  }

  // ----- Backoff -----

  const FIRST_BACKOFF: nat := 250
  const MAX_BACKOFF: nat := 300_000

  function Pow2(n: nat): (p: nat)
    ensures p >= 1
  {
    if n == 0 then 1 else 2 * Pow2(n - 1)
  }

  /** The wait after a failed cycle that follows `n` failed ones, in milliseconds. */
  function BackoffMs(n: nat): nat {
    if FIRST_BACKOFF * Pow2(n) <= MAX_BACKOFF then FIRST_BACKOFF * Pow2(n) else MAX_BACKOFF
  }

  /** The waits start at 250 milliseconds and double up to the ceiling. */
  lemma BackoffDoubles(n: nat)
    ensures BackoffMs(0) == 250
    ensures BackoffMs(n + 1) == if 2 * BackoffMs(n) <= MAX_BACKOFF then 2 * BackoffMs(n) else MAX_BACKOFF
  {
  }

  /** Waits never fall, and stay at the ceiling from the twelfth failure on. */
  lemma {:induction false} BackoffRises(m: nat, n: nat)
    requires m <= n
    ensures FIRST_BACKOFF <= BackoffMs(m) <= BackoffMs(n) <= MAX_BACKOFF
    ensures n >= 11 ==> BackoffMs(n) == MAX_BACKOFF
    decreases n
  {
    if n > 0 {
      BackoffDoubles(n - 1);
      BackoffRises(if m < n then m else n - 1, n - 1);
      if n == 11 {
        assert Pow2(11) == 2048 by {
          assert Pow2(8) == 256;
        }
      }
    }
  }

  // ----- Traces -----

  predicate Follows(a: ConnectionState, b: ConnectionState) {
    match a
    case Connecting => b == Authenticating || b == Disconnected
    case Authenticating => b == Syncing
    case Syncing => b == Syncing || b == Idle || b == Disconnected
    case Idle => b == Syncing || b == Disconnected
    case Disconnected => b == Connecting
    case OfflineMode => false
  }

  /** Each state follows the one before it, the first one following `from`. */
  predicate Legal(from: ConnectionState, trace: seq<ConnectionState>)
    decreases trace
  {
    trace == [] || (Follows(from, trace[0]) && Legal(trace[0], trace[1..]))
  }

  function Last(from: ConnectionState, trace: seq<ConnectionState>): ConnectionState {
    if trace == [] then from else trace[|trace| - 1]
  }

  function Occurrences(trace: seq<ConnectionState>, state: ConnectionState): nat {
    if trace == [] then 0
    else (if trace[0] == state then 1 else 0) + Occurrences(trace[1..], state)
  }

  lemma {:induction false} JoinTraces(from: ConnectionState, a: seq<ConnectionState>, b: seq<ConnectionState>)
    requires Legal(from, a) && Legal(Last(from, a), b)
    ensures Legal(from, a + b) && Last(from, a + b) == Last(Last(from, a), b)
    decreases a
  {
    if a == [] {
      assert a + b == b;
    } else {
      JoinTraces(a[0], a[1..], b);
      assert (a + b)[1..] == a[1..] + b;
    }
  }

  lemma {:induction false} JoinOccurrences(a: seq<ConnectionState>, b: seq<ConnectionState>, state: ConnectionState)
    ensures Occurrences(a + b, state) == Occurrences(a, state) + Occurrences(b, state)
  {
    if a == [] {
      assert a + b == b;
    } else {
      JoinOccurrences(a[1..], b, state);
      assert (a + b)[1..] == a[1..] + b;
    }
  }

  lemma {:induction false} SweepCancelsOnlyWhenCancelled(sweep: seq<FolderTry>, cancelled: bool)
    ensures Sweep(sweep, cancelled).end == SweepCancelled ==> Sweep(sweep, cancelled).cancelled
    ensures cancelled ==> Sweep(sweep, cancelled).cancelled && Sweep(sweep, cancelled).end != SweepFailed
  {
    if sweep != [] && !cancelled && !sweep[0].cancelFirst && sweep[0].ok {
      SweepCancelsOnlyWhenCancelled(sweep[1..], false);
    }
  }

  /** Joining at a state keeps traces legal and adds up what they hold. */
  lemma JoinAt(from: ConnectionState, a: seq<ConnectionState>, b: seq<ConnectionState>)
    requires Legal(from, a) && Legal(Last(from, a), b)
    ensures Legal(from, a + b) && Last(from, a + b) == Last(Last(from, a), b)
    ensures Occurrences(a + b, Connecting) == Occurrences(a, Connecting) + Occurrences(b, Connecting)
    ensures Occurrences(a + b, Disconnected) == Occurrences(a, Disconnected) + Occurrences(b, Disconnected)
  {
    JoinTraces(from, a, b);
    JoinOccurrences(a, b, Connecting);
    JoinOccurrences(a, b, Disconnected);
  }

  function Resting(polls: bool): ConnectionState {
    if polls then Syncing else Idle
  }

  lemma TurnTrace(polls: bool, round: Round, cancelled: bool)
    ensures var r := Turn(polls, round, cancelled);
            && Legal(Resting(polls), r.states) && Last(Resting(polls), r.states) in {Syncing, Idle}
            && Occurrences(r.states, Connecting) == Occurrences(r.states, Disconnected) == 0
            && (r.end == EndedOk ==> r.cancelled)
            && (r.end == Running ==> Last(Resting(polls), r.states) == Resting(polls))
  {
    SweepCancelsOnlyWhenCancelled(round.sweep, false);
    assert [Syncing] + [] == [Syncing] && [Syncing] + [Idle] == [Syncing, Idle] && [Syncing, Idle][1..] == [Idle];
  }

  lemma {:induction false} DwellTrace(polls: bool, rounds: seq<Round>, cancelled: bool)
    ensures var r := Dwell(polls, rounds, cancelled);
            && Legal(Resting(polls), r.states) && Last(Resting(polls), r.states) in {Syncing, Idle}
            && Occurrences(r.states, Connecting) == Occurrences(r.states, Disconnected) == 0
            && (r.end == EndedOk ==> r.cancelled)
  {
    if rounds != [] {
      var turn := Turn(polls, rounds[0], cancelled);
      TurnTrace(polls, rounds[0], cancelled);
      if turn.end == Running {
        DwellTrace(polls, rounds[1..], turn.cancelled);
        JoinAt(Resting(polls), turn.states, Dwell(polls, rounds[1..], turn.cancelled).states);
      }
    }
  }

  /** A cycle starts by connecting, connects once, and ends well only because it was cancelled. */
  ghost predicate CycleOk(r: CycleOutcome) {
    && Legal(Disconnected, r.states) && Last(Disconnected, r.states) in {Connecting, Syncing, Idle}
    && Occurrences(r.states, Connecting) == 1 && Occurrences(r.states, Disconnected) == 0
    && (r.end == EndedOk ==> r.cancelled)
  }

  lemma OpeningTrace()
    ensures var opening := [Connecting, Authenticating, Syncing];
            && Legal(Disconnected, opening)
            && Occurrences(opening, Connecting) == 1 && Occurrences(opening, Disconnected) == 0
  {
    var opening := [Connecting, Authenticating, Syncing];
    assert opening[1..] == [Authenticating, Syncing] && opening[1..][1..] == [Syncing];
  }

  /** The trace up to the poll or IDLE loop. */
  lemma ReadyTrace(polls: bool)
    ensures var ready := [Connecting, Authenticating, Syncing] + if polls then [] else [Idle];
            && Legal(Disconnected, ready) && Last(Disconnected, ready) == Resting(polls)
            && Occurrences(ready, Connecting) == 1 && Occurrences(ready, Disconnected) == 0
  {
    var opening := [Connecting, Authenticating, Syncing];
    OpeningTrace();
    JoinAt(Disconnected, opening, [Idle]);
    assert opening + [] == opening;
  }

  lemma CycleTrace(script: CycleScript, cancelled: bool)
    ensures CycleOk(Cycle(script, cancelled))
  {
    OpeningTrace();
    SweepCancelsOnlyWhenCancelled(script.sweep, cancelled);
    var swept := Sweep(script.sweep, cancelled);
    if script.connects && script.lists && script.busOpen && swept.end.SweptAll? {
      DwellCycleTrace(script, cancelled);
    }
  }

  lemma DwellCycleTrace(script: CycleScript, cancelled: bool)
    requires script.connects && script.lists && script.busOpen && Sweep(script.sweep, cancelled).end.SweptAll?
    ensures CycleOk(Cycle(script, cancelled))
  {
    var ready := [Connecting, Authenticating, Syncing] + if script.polls then [] else [Idle];
    var dwelt := Dwell(script.polls, script.rounds, Sweep(script.sweep, cancelled).cancelled);
    ReadyTrace(script.polls);
    DwellTrace(script.polls, script.rounds, Sweep(script.sweep, cancelled).cancelled);
    JoinAt(Disconnected, ready, dwelt.states);
    assert Cycle(script, cancelled).states == ready + dwelt.states;
  }

  lemma TryTrace(attempt: Attempt, cycle: CycleOutcome, failures: nat, cancelled: bool)
    requires CycleOk(cycle)
    ensures var r := Try(attempt, cycle, failures, cancelled);
            && RunOk(failures, r.states, r.waits)
            && (r.stops == Some(true) ==> r.cancelled)
            && (r.stops == None ==> r.cancelled || Last(Disconnected, r.states) == Disconnected)
  {
    if cycle.end == EndedErr {
      JoinAt(Disconnected, cycle.states, [Disconnected]);
    }
  }

  /** What holds of a run that starts disconnected after `failures` failed cycles. */
  ghost predicate RunOk(failures: nat, states: seq<ConnectionState>, waits: seq<nat>) {
    && Legal(Disconnected, states)
    && |waits| == Occurrences(states, Disconnected)
    && forall i :: 0 <= i < |waits| ==> waits[i] == BackoffMs(failures + i)
  }

  lemma JoinRuns(failures: nat, a: seq<ConnectionState>, v: seq<nat>, b: seq<ConnectionState>, w: seq<nat>)
    requires RunOk(failures, a, v) && RunOk(failures + |v|, b, w)
    requires b == [] || Last(Disconnected, a) == Disconnected
    ensures RunOk(failures, a + b, v + w)
  {
    JoinAt(Disconnected, a, b);
    forall i | |v| <= i < |v + w|
      ensures (v + w)[i] == BackoffMs(failures + i)
    {
      assert (v + w)[i] == w[i - |v|] == BackoffMs(failures + |v| + (i - |v|));
    }
  }

  lemma {:induction false} CyclesRun(attempts: seq<Attempt>, cycles: seq<CycleOutcome>, failures: nat, cancelled: bool)
    requires |cycles| == |attempts| && forall c :: c in cycles ==> CycleOk(c)
    ensures var r := Ran(attempts, cycles, failures, cancelled);
            RunOk(failures, r.states, r.waits) && (r.returned ==> r.cancelled)
              && (cancelled ==> r.states == [] && r.waits == [])
  {
    if attempts != [] {
      var t := Try(attempts[0], cycles[0], failures, cancelled);
      TryTrace(attempts[0], cycles[0], failures, cancelled);
      if t.stops.None? {
        var rest := Ran(attempts[1..], cycles[1..], failures + |t.waits|, t.cancelled);
        CyclesRun(attempts[1..], cycles[1..], failures + |t.waits|, t.cancelled);
        JoinRuns(failures, t.states, t.waits, rest.states, rest.waits);
      }
    }
  }

  /**
   Over a whole run the emitted states form a legal trace that starts with
   Connecting, every disconnection has its wait, and the n-th wait is the n-th of
   the closed form: since a cycle ends well only once it is cancelled, the reset of
   the backoff never shortens a wait. The run returns only when cancelled.
   */
  lemma RunTrace(attempts: seq<Attempt>, cancelled: bool)
    ensures var r := RunOf(attempts, cancelled);
            && Legal(Disconnected, r.states)
            && |r.waits| == Occurrences(r.states, Disconnected)
            && (forall i :: 0 <= i < |r.waits| ==> r.waits[i] == BackoffMs(i))
            && (r.returned ==> r.cancelled)
  {
    var cycles := Cycles(attempts);
    forall i | 0 <= i < |cycles|
      ensures CycleOk(cycles[i])
    {
      CycleTrace(attempts[i].cycle, false);
    }
    CyclesRun(attempts, cycles, 0, cancelled);
    var r := RunOf(attempts, cancelled);
    assert RunOk(0, r.states, r.waits);
    forall i | 0 <= i < |r.waits|
      ensures r.waits[i] == BackoffMs(i)
    {
      assert r.waits[i] == BackoffMs(0 + i);
    }
  }

  // ----- What ends a sweep, a turn, a dwell and a cycle -----

  /** Folder `k` is the first one with a cancellation before it or a pass that fails. */
  predicate FirstTrouble(sweep: seq<FolderTry>, k: nat) {
    && k < |sweep| && (sweep[k].cancelFirst || !sweep[k].ok)
    && forall i :: 0 <= i < k ==> !sweep[i].cancelFirst && sweep[i].ok
  }

  predicate GoesThrough(sweep: seq<FolderTry>) {
    forall i :: 0 <= i < |sweep| ==> !sweep[i].cancelFirst && sweep[i].ok
  }

  ghost predicate SweepBreaks(sweep: seq<FolderTry>) {
    exists k: nat :: FirstTrouble(sweep, k) && !sweep[k].cancelFirst
  }

  ghost predicate SweepStops(sweep: seq<FolderTry>) {
    exists k: nat :: FirstTrouble(sweep, k) && sweep[k].cancelFirst
  }

  /** A sweep goes through exactly without trouble; otherwise its first trouble decides how it ends. */
  lemma {:induction false} SweepEndsExactly(sweep: seq<FolderTry>)
    ensures var r := Sweep(sweep, false);
            && (r.end == SweptAll <==> GoesThrough(sweep))
            && (r.end == SweepFailed <==> SweepBreaks(sweep))
            && (r.end == SweepCancelled <==> SweepStops(sweep))
            && (r.cancelled <==> r.end == SweepCancelled)
  {
    if sweep != [] {
      if sweep[0].cancelFirst || !sweep[0].ok {
        assert FirstTrouble(sweep, 0);
        assert forall k: nat :: FirstTrouble(sweep, k) ==> k == 0;
      } else {
        SweepEndsExactly(sweep[1..]);
        TroubleLater(sweep);
      }
    }
  }

  /** After a folder without trouble, the sweep ends as its rest does. */
  lemma TroubleLater(sweep: seq<FolderTry>)
    requires sweep != [] && !sweep[0].cancelFirst && sweep[0].ok
    ensures GoesThrough(sweep) <==> GoesThrough(sweep[1..])
    ensures SweepBreaks(sweep) <==> SweepBreaks(sweep[1..])
    ensures SweepStops(sweep) <==> SweepStops(sweep[1..])
  {
    var rest := sweep[1..];
    assert forall i :: 0 <= i < |rest| ==> rest[i] == sweep[i + 1];
    assert GoesThrough(rest) ==> forall i :: 0 < i < |sweep| ==> sweep[i] == rest[i - 1];
    forall k: nat
      ensures FirstTrouble(rest, k) <==> FirstTrouble(sweep, k + 1)
    {
      FirstTroubleLater(sweep, k);
    }
    if k: nat :| FirstTrouble(sweep, k) {
      assert k > 0 && FirstTrouble(rest, k - 1) && rest[k - 1] == sweep[k];
      assert forall j: nat :: FirstTrouble(rest, j) ==> j == k - 1;
    } else {
      forall k: nat
        ensures !FirstTrouble(rest, k)
      {
        assert !FirstTrouble(sweep, k + 1);
      }
    }
  }

  lemma FirstTroubleLater(sweep: seq<FolderTry>, k: nat)
    requires sweep != [] && !sweep[0].cancelFirst && sweep[0].ok
    ensures FirstTrouble(sweep[1..], k) <==> FirstTrouble(sweep, k + 1)
  {
    assert forall i :: 0 <= i < |sweep| - 1 ==> sweep[1..][i] == sweep[i + 1];
    if FirstTrouble(sweep[1..], k) {
      forall i | 0 <= i < k + 1
        ensures !sweep[i].cancelFirst && sweep[i].ok
      {
        assert i > 0 ==> sweep[i] == sweep[1..][i - 1];
      }
    }
  }

  /**
   The round begins a sweep: nothing is cancelled up to there, and the wait is over
   when polling, or IDLE brought something.
   */
  predicate Begins(polls: bool, r: Round) {
    !r.cancelFirst && (polls || (r.idle == IdleWoke && !r.cancelAfter))
  }

  /** The round is over with the connection kept: no cancellation, no failure, and any sweep goes through. */
  predicate Undisturbed(polls: bool, r: Round) {
    && !r.cancelFirst
    && (polls || (r.idle != IdleFails && !r.cancelAfter))
    && (polls || r.idle == IdleWoke ==> GoesThrough(r.sweep))
  }

  /** The round loses the connection: IDLE fails, or the pass of some folder does. */
  ghost predicate Loses(polls: bool, r: Round) {
    && !r.cancelFirst
    && ((!polls && r.idle == IdleFails) || (Begins(polls, r) && SweepBreaks(r.sweep)))
  }

  lemma TurnExactly(polls: bool, r: Round)
    ensures var turn := Turn(polls, r, false);
            && (turn.end == Running <==> Undisturbed(polls, r))
            && (turn.end == EndedErr <==> Loses(polls, r))
            && (turn.end != EndedOk ==> !turn.cancelled)
            && Occurrences(turn.states, Syncing) == (if Begins(polls, r) then 1 else 0)
            && Occurrences(turn.states, Idle)
               == (if Begins(polls, r) && Undisturbed(polls, r) && !polls then 1 else 0)
  {
    SweepEndsExactly(r.sweep);
    SyncingThen([]);
    SyncingThen([Idle]);
  }

  lemma SyncingThen(then_: seq<ConnectionState>)
    ensures Occurrences([Syncing] + then_, Syncing) == 1 + Occurrences(then_, Syncing)
    ensures Occurrences([Syncing] + then_, Idle) == Occurrences(then_, Idle)
  {
    JoinOccurrences([Syncing], then_, Syncing);
    JoinOccurrences([Syncing], then_, Idle);
  }

  /** The rounds that begin a sweep, those before them being undisturbed. */
  function SweepsOf(polls: bool, rounds: seq<Round>): set<nat> {
    set i: nat | i < |rounds| && Begins(polls, rounds[i]) && forall j :: 0 <= j < i ==> Undisturbed(polls, rounds[j])
  }

  /** Those among them whose sweep goes through. */
  function FinishedSweepsOf(polls: bool, rounds: seq<Round>): set<nat> {
    set i: nat | i < |rounds| && Begins(polls, rounds[i]) && forall j :: 0 <= j <= i ==> Undisturbed(polls, rounds[j])
  }

  predicate AllUndisturbed(polls: bool, rounds: seq<Round>) {
    forall i :: 0 <= i < |rounds| ==> Undisturbed(polls, rounds[i])
  }

  /** A round loses the connection, those before it being undisturbed. */
  ghost predicate LosesConnection(polls: bool, rounds: seq<Round>) {
    exists k :: 0 <= k < |rounds| && Loses(polls, rounds[k]) && AllUndisturbed(polls, rounds[..k])
  }

  /** One more round: it is turned to only when all before it left the cycle running. */
  lemma {:induction false} DwellAppend(polls: bool, rounds: seq<Round>, r: Round, cancelled: bool)
    ensures var dwelt := Dwell(polls, rounds, cancelled);
            Dwell(polls, rounds + [r], cancelled) ==
            if dwelt.end == Running then After(dwelt.states, Turn(polls, r, dwelt.cancelled)) else dwelt
  {
    var all := rounds + [r];
    if rounds == [] {
      assert all[1..] == [];
      var turn := Turn(polls, r, cancelled);
      assert turn.states + [] == turn.states;
    } else {
      var turn := Turn(polls, rounds[0], cancelled);
      assert all[1..] == rounds[1..] + [r];
      if turn.end == Running {
        DwellAppend(polls, rounds[1..], r, turn.cancelled);
        var dwelt := Dwell(polls, rounds[1..], turn.cancelled);
        Associate(turn.states, dwelt.states, Turn(polls, r, dwelt.cancelled).states);
      }
    }
  }

  /**
   When a dwell sweeps: Syncing is emitted once for each round that begins a sweep,
   which while idling are those whose IDLE brought something and while polling all,
   and Idle once more for each that goes through while idling. The dwell goes on as
   long as no round is disturbed and fails with the first round that loses the
   connection; any other end is a cancellation.
   */
  lemma {:induction false} DwellExactly(polls: bool, rounds: seq<Round>)
    ensures DwellCounts(polls, rounds, Dwell(polls, rounds, false))
  {
    if rounds != [] {
      var init, last := rounds[..|rounds| - 1], rounds[|rounds| - 1];
      DwellExactly(polls, init);
      DwellAppend(polls, init, last, false);
      assert rounds == init + [last];
      CountsMore(polls, init, last, Dwell(polls, init, false));
    }
  }

  ghost predicate DwellCounts(polls: bool, rounds: seq<Round>, r: CycleOutcome) {
    && Occurrences(r.states, Syncing) == |SweepsOf(polls, rounds)|
    && Occurrences(r.states, Idle) == (if polls then 0 else |FinishedSweepsOf(polls, rounds)|)
    && (r.end == Running <==> AllUndisturbed(polls, rounds))
    && (r.end == EndedErr <==> LosesConnection(polls, rounds))
    && (r.end != EndedOk ==> !r.cancelled)
  }

  lemma CountsMore(polls: bool, rounds: seq<Round>, r: Round, before: CycleOutcome)
    requires DwellCounts(polls, rounds, before)
    ensures DwellCounts(polls, rounds + [r],
                        if before.end == Running then After(before.states, Turn(polls, r, before.cancelled))
                            else before)
  {
    var turn := Turn(polls, r, false);
    TurnExactly(polls, r);
    JoinOccurrences(before.states, turn.states, Syncing);
    JoinOccurrences(before.states, turn.states, Idle);
    CountsStep(polls, rounds, r);
    LosesStep(polls, rounds, r);
    if before.end == Running {
      CardinalityStep(SweepsOf(polls, rounds), |rounds|);
      CardinalityStep(FinishedSweepsOf(polls, rounds), |rounds|);
    }
  }

  lemma CardinalityStep(s: set<nat>, n: nat)
    requires n !in s
    ensures |s + {n}| == |s| + 1
  {
  }

  lemma CountsStep(polls: bool, rounds: seq<Round>, r: Round)
    ensures SweepsOf(polls, rounds + [r]) == SweepsOf(polls, rounds)
              + if AllUndisturbed(polls, rounds) && Begins(polls, r) then {|rounds| as nat} else {}
    ensures FinishedSweepsOf(polls, rounds + [r]) == FinishedSweepsOf(polls, rounds)
              + if AllUndisturbed(polls, rounds) && Begins(polls, r) && Undisturbed(polls, r) then {|rounds| as nat}
                else {}
    ensures AllUndisturbed(polls, rounds + [r]) <==> AllUndisturbed(polls, rounds) && Undisturbed(polls, r)
  {
    var all := rounds + [r];
    assert all[|rounds|] == r && forall i :: 0 <= i < |rounds| ==> all[i] == rounds[i];
  }

  lemma LosesStep(polls: bool, rounds: seq<Round>, r: Round)
    ensures LosesConnection(polls, rounds + [r])
            <==> LosesConnection(polls, rounds) || (AllUndisturbed(polls, rounds) && Loses(polls, r))
  {
    var all := rounds + [r];
    assert all[..|rounds|] == rounds && all[|rounds|] == r;
    assert forall k :: 0 <= k < |rounds| ==> all[..k] == rounds[..k] && all[k] == rounds[k];
  }

  /** The cycle gets past its first sweep. */
  predicate Settles(script: CycleScript) {
    script.connects && script.lists && script.busOpen && GoesThrough(script.sweep)
  }

  /** It cannot connect, list or announce, or a pass or an IDLE fails before any cancellation. */
  ghost predicate CycleFails(script: CycleScript) {
    || !script.connects || !script.lists || !script.busOpen || SweepBreaks(script.sweep)
    || (GoesThrough(script.sweep) && LosesConnection(script.polls, script.rounds))
  }

  /**
   The same for a whole cycle: a connected one emits Syncing once at its start and
   then as its dwell does, and it is still running exactly when nothing went
   wrong.
   */
  lemma CycleExactly(script: CycleScript)
    ensures var r := Cycle(script, false);
            && Occurrences(r.states, Syncing)
               == (if script.connects then 1 else 0)
                  + (if Settles(script) then |SweepsOf(script.polls, script.rounds)| else 0)
            && Occurrences(r.states, Idle)
               == (if Settles(script) && !script.polls then
                     1 + |FinishedSweepsOf(script.polls, script.rounds)|
                   else 0)
            && (r.end == Running <==> Settles(script) && AllUndisturbed(script.polls, script.rounds))
            && (r.end == EndedErr <==> CycleFails(script)) && (r.end == EndedErr ==> !r.cancelled)
  {
    SweepEndsExactly(script.sweep);
    OpeningCounts();
    if Settles(script) {
      DwellExactly(script.polls, script.rounds);
      var dwelt := Dwell(script.polls, script.rounds, false);
      var ready := if script.polls then Opening else Opening + [Idle];
      JoinOccurrences(ready, dwelt.states, Syncing);
      JoinOccurrences(ready, dwelt.states, Idle);
    }
  }

  const Opening := [Connecting, Authenticating, Syncing]

  lemma OpeningCounts()
    ensures Occurrences(Opening, Syncing) == 1 && Occurrences(Opening, Idle) == 0
    ensures Occurrences(Opening + [Idle], Syncing) == 1 && Occurrences(Opening + [Idle], Idle) == 1
    ensures Occurrences([Connecting], Syncing) == 0 && Occurrences([Connecting], Idle) == 0
  {
    assert Opening[1..] == [Authenticating, Syncing] && Opening[1..][1..] == [Syncing];
    JoinOccurrences(Opening, [Idle], Syncing);
    JoinOccurrences(Opening, [Idle], Idle);
  }

  /** The attempt's cycle fails, and the next one follows after a wait. */
  ghost predicate Retries(a: Attempt) {
    !a.cancelFirst && !a.cancelInWait && CycleFails(a.cycle)
  }

  /** A run that makes `n` attempts: each but the last one retries, and nothing but a cancellation stops it. */
  ghost predicate Makes(attempts: seq<Attempt>, n: nat) {
    && n <= |attempts|
    && (forall i :: 0 <= i < n ==> !attempts[i].cancelFirst)
    && (forall i :: 0 <= i < n - 1 ==> Retries(attempts[i]))
    && (n < |attempts| ==> attempts[n].cancelFirst || (n > 0 && !Retries(attempts[n - 1])))
  }

  /** Each attempt connects once, and each one whose cycle fails waits. */
  ghost predicate RunCounts(attempts: seq<Attempt>, n: nat, r: RunOutcome) {
    && Makes(attempts, n)
    && Occurrences(r.states, Connecting) == n
    && |r.waits| == if n > 0 && !CycleFails(attempts[n - 1].cycle) then n - 1 else n
  }

  /**
   How many attempts a run makes: from a failed cycle it goes on to the next one
   until a cancellation, each attempt connects once, and each failed one waits.
   */
  lemma RunExactly(attempts: seq<Attempt>) returns (n: nat)
    ensures RunCounts(attempts, n, RunOf(attempts, false))
  {
    forall i | 0 <= i < |attempts|
      ensures Decides(attempts[i], Cycle(attempts[i].cycle, false))
    {
      CycleExactly(attempts[i].cycle);
      CycleTrace(attempts[i].cycle, false);
    }
    n := RanExactly(attempts, Cycles(attempts), 0);
  }

  /** What counts of a cycle for the run. */
  ghost predicate Decides(a: Attempt, cycle: CycleOutcome) {
    && (cycle.end == EndedErr <==> CycleFails(a.cycle))
    && (cycle.end == EndedErr ==> !cycle.cancelled) && (cycle.end == EndedOk ==> cycle.cancelled)
    && Occurrences(cycle.states, Connecting) == 1
  }

  lemma {:induction false} RanExactly(attempts: seq<Attempt>, cycles: seq<CycleOutcome>, failures: nat)
    returns (n: nat)
    requires |cycles| == |attempts| && forall i :: 0 <= i < |cycles| ==> Decides(attempts[i], cycles[i])
    ensures RunCounts(attempts, n, Ran(attempts, cycles, failures, false))
  {
    n := 0;
    if attempts != [] && !attempts[0].cancelFirst {
      var t := Try(attempts[0], cycles[0], failures, false);
      var rest := Ran(attempts[1..], cycles[1..], failures + |t.waits|, t.cancelled);
      TriedOnce(attempts[0], cycles[0], failures);
      RanUnfolds(attempts, cycles, failures, t, rest);
      if Retries(attempts[0]) {
        var m := RanExactly(attempts[1..], cycles[1..], failures + 1);
        OneMoreAttempt(attempts, m, t, rest);
        n := m + 1;
      } else {
        n := 1;
        if t.stops.None? {
          NothingAfterCancel(attempts[1..], cycles[1..], failures + |t.waits|);
        }
        LastAttempt(attempts, t, Ran(attempts, cycles, failures, false));
      }
    }
  }

  lemma OneMoreAttempt(attempts: seq<Attempt>, m: nat, t: AttemptOutcome, rest: RunOutcome)
    requires attempts != [] && Retries(attempts[0]) && RunCounts(attempts[1..], m, rest)
    requires Occurrences(t.states, Connecting) == 1 && |t.waits| == 1
    ensures RunCounts(attempts, m + 1, rest.(states := t.states + rest.states, waits := t.waits + rest.waits))
  {
    MakesOneMore(attempts, m);
    JoinOccurrences(t.states, rest.states, Connecting);
    assert m > 0 ==> attempts[m] == attempts[1..][m - 1];
  }

  lemma LastAttempt(attempts: seq<Attempt>, t: AttemptOutcome, r: RunOutcome)
    requires attempts != [] && !attempts[0].cancelFirst && !Retries(attempts[0])
    requires Occurrences(t.states, Connecting) == 1 && |t.waits| == if CycleFails(attempts[0].cycle) then 1 else 0
    requires (r.states == t.states && r.waits == t.waits) || (r.states == t.states + [] && r.waits == t.waits + [])
    ensures RunCounts(attempts, 1, r)
  {
    assert t.states + [] == t.states && t.waits + [] == t.waits;
  }

  /** A run does what its first attempt does and, if that goes on, what the rest does. */
  lemma RanUnfolds(attempts: seq<Attempt>, cycles: seq<CycleOutcome>, failures: nat, t: AttemptOutcome,
                   rest: RunOutcome)
    requires |cycles| == |attempts| > 0 && t == Try(attempts[0], cycles[0], failures, false)
    requires rest == Ran(attempts[1..], cycles[1..], failures + |t.waits|, t.cancelled)
    ensures Ran(attempts, cycles, failures, false) ==
            if t.stops.Some? then RunOutcome(t.stops.value, t.states, t.waits, t.cancelled)
            else rest.(states := t.states + rest.states, waits := t.waits + rest.waits)
  {
  }

  lemma TriedOnce(a: Attempt, cycle: CycleOutcome, failures: nat)
    requires Decides(a, cycle) && !a.cancelFirst
    ensures var t := Try(a, cycle, failures, false);
            && Occurrences(t.states, Connecting) == 1 && |t.waits| == (if CycleFails(a.cycle) then 1 else 0)
            && (Retries(a) ==> t.stops.None? && !t.cancelled) && (!Retries(a) && t.stops.None? ==> t.cancelled)
  {
    JoinOccurrences(cycle.states, [Disconnected], Connecting);
  }

  lemma MakesOneMore(attempts: seq<Attempt>, m: nat)
    requires attempts != [] && Retries(attempts[0]) && Makes(attempts[1..], m)
    ensures Makes(attempts, m + 1)
  {
    var rest := attempts[1..];
    forall i | 0 <= i < m + 1
      ensures !attempts[i].cancelFirst && (i < m ==> Retries(attempts[i]))
    {
      assert i > 0 ==> attempts[i] == rest[i - 1];
    }
  }

  lemma NothingAfterCancel(attempts: seq<Attempt>, cycles: seq<CycleOutcome>, failures: nat)
    requires |cycles| == |attempts|
    ensures Ran(attempts, cycles, failures, true).states == [] && Ran(attempts, cycles, failures, true).waits == []
  {
  }

  // ----- The loop -----

  class CancellationToken {
    var cancelled: bool

    constructor ()
      ensures !cancelled
    {
      cancelled := false;
    }

    /** A cancelled token stays cancelled; `arrives` is the host's request. */
    method IsCancelled(arrives: bool) returns (b: bool)
      modifies this
      ensures b == cancelled == (old(cancelled) || arrives)
    {
      cancelled := cancelled || arrives;
      b := cancelled;
    }
  }

  class SyncRunner {
    const account: nat
    const store: MemStore
    const token: CancellationToken
    var emitted: seq<ConnectionState>
    var waits: seq<nat>

    constructor (account: nat, store: MemStore, token: CancellationToken)
      ensures emitted == [] && waits == []
      ensures this.account == account && this.store == store && this.token == token
    {
      this.account, this.store, this.token := account, store, token;
      emitted, waits := [], [];
    }

    /** The account state in the store is the last one emitted. */
    predicate Persisted()
      reads this, store
    {
      emitted != [] ==> Find(store.accountStates, account) == Some(emitted[|emitted| - 1])
    }

    /** The call has emitted and decided what `r` says, the trace having been `before`. */
    predicate Did(before: seq<ConnectionState>, end: CycleEnd, r: CycleOutcome)
      reads this, store, token
    {
      emitted == before + r.states && Persisted() && end == r.end && token.cancelled == r.cancelled
    }

    method EmitState(state: ConnectionState)
      modifies `emitted, store`accountStates
      ensures emitted == old(emitted) + [state] && Persisted()
    {
      store.SetAccountState(account, state);
      emitted := emitted + [state];
    }

    method SweepFolders(sweep: seq<FolderTry>) returns (end: SweepEnd)
      modifies token
      ensures SweepOutcome(end, token.cancelled) == Sweep(sweep, old(token.cancelled))
    {
      for k := 0 to |sweep|
        invariant Sweep(sweep, old(token.cancelled)) == Sweep(sweep[k..], token.cancelled)
      {
        var b := token.IsCancelled(sweep[k].cancelFirst);
        if b {
          return SweepCancelled;
        }
        if !sweep[k].ok {
          return SweepFailed;
        }
        assert sweep[k..][1..] == sweep[k + 1..];
      }
      end := SweptAll;
    }

    /** Announces a sweep and runs it; `end` is Running when it goes through. */
    method ResyncFolders(sweep: seq<FolderTry>, idles: bool) returns (end: CycleEnd)
      requires !token.cancelled
      modifies `emitted, store`accountStates, token
      ensures Did(old(emitted), end, Resync(sweep, if idles then [Idle] else []))
    {
      EmitState(Syncing);
      var swept := SweepFolders(sweep);
      match swept {
        case SweepCancelled => return EndedOk;
        case SweepFailed => return EndedErr;
        case SweptAll =>
      }
      if idles {
        EmitState(Idle);
      }
      assert emitted == old(emitted) + ([Syncing] + if idles then [Idle] else []);
      end := Running;
    }

    method PollOnce(round: Round) returns (end: CycleEnd)
      requires Persisted()
      modifies `emitted, store`accountStates, token
      ensures Did(old(emitted), end, PollTurn(round, old(token.cancelled)))
    {
      var b := token.IsCancelled(round.cancelFirst);
      if b {
        return EndedOk;
      }
      end := ResyncFolders(round.sweep, false);
    }

    method IdleOnce(round: Round) returns (end: CycleEnd)
      requires Persisted()
      modifies `emitted, store`accountStates, token
      ensures Did(old(emitted), end, IdleTurn(round, old(token.cancelled)))
    {
      var b := token.IsCancelled(round.cancelFirst);
      if b {
        return EndedOk;
      }
      if round.idle == IdleFails {
        return EndedErr;
      }
      b := token.IsCancelled(round.cancelAfter);
      if b {
        return EndedOk;
      }
      end := Running;
      if round.idle == IdleWoke {
        end := ResyncFolders(round.sweep, true);
      }
    }

    method TurnOnce(polls: bool, round: Round) returns (end: CycleEnd)
      requires Persisted()
      modifies `emitted, store`accountStates, token
      ensures Did(old(emitted), end, Turn(polls, round, old(token.cancelled)))
    {
      if polls {
        end := PollOnce(round);
      } else {
        end := IdleOnce(round);
      }
    }

    /** The poll or IDLE loop; the JMAP service only polls. */
    method DwellLoop(polls: bool, rounds: seq<Round>) returns (end: CycleEnd)
      requires Persisted()
      modifies `emitted, store`accountStates, token
      ensures Did(old(emitted), end, Dwell(polls, rounds, old(token.cancelled)))
    {
      end := Running;
      ghost var sofar: seq<ConnectionState>, total := [], Dwell(polls, rounds, token.cancelled);
      var k := 0;
      while k < |rounds| && end == Running
        invariant 0 <= k <= |rounds|
        invariant emitted == old(emitted) + sofar && Persisted()
        invariant total == if end == Running then After(sofar, Dwell(polls, rounds[k..], token.cancelled))
                  else CycleOutcome(end, sofar, token.cancelled)
      {
        AfterTurn(sofar, polls, rounds, k, token.cancelled);
        ghost var turn := Turn(polls, rounds[k], token.cancelled);
        Associate(old(emitted), sofar, turn.states);
        end := TurnOnce(polls, rounds[k]);
        sofar := sofar + turn.states;
        k := k + 1;
      }
    }

    method Open(connects: bool)
      modifies `emitted, store`accountStates
      ensures emitted == old(emitted) + (if connects then [Connecting, Authenticating, Syncing] else [Connecting])
              && Persisted()
    {
      EmitState(Connecting);
      if connects {
        EmitState(Authenticating);
        EmitState(Syncing);
      }
    }

    method RunOneCycle(script: CycleScript) returns (end: CycleEnd)
      requires Persisted()
      modifies `emitted, store`accountStates, token
      ensures Did(old(emitted), end, Cycle(script, old(token.cancelled)))
    {
      ghost var dwelt := Dwell(script.polls, script.rounds, Sweep(script.sweep, token.cancelled).cancelled);
      Open(script.connects);
      if !script.connects || !script.lists || !script.busOpen {
        return EndedErr;
      }
      var swept := SweepFolders(script.sweep);
      if swept == SweepCancelled {
        return EndedOk;
      }
      if swept == SweepFailed {
        return EndedErr;
      }
      if !script.polls {
        EmitState(Idle);
      }
      ghost var sofar := [Connecting, Authenticating, Syncing] + if script.polls then [] else [Idle];
      assert emitted == old(emitted) + sofar;
      end := DwellLoop(script.polls, script.rounds);
      Associate(old(emitted), sofar, dwelt.states);
    }

    /** A failed cycle: the disconnection is announced and the wait begins. */
    method Disconnect(backoff: nat)
      modifies `emitted, `waits, store`accountStates
      ensures emitted == old(emitted) + [Disconnected] && waits == old(waits) + [backoff] && Persisted()
    {
      EmitState(Disconnected);
      waits := waits + [backoff];
    }

    /** One turn of the outer loop with `backoff` as the next wait; gives the one after it. */
    method TryCycle(attempt: Attempt, backoff: nat) returns (stops: Option<bool>, next: nat)
      requires Persisted() && (!token.cancelled ==> backoff == BackoffMs(|waits|))
      modifies this, store`accountStates, token
      ensures var t := Try(attempt, Cycle(attempt.cycle, false), old(|waits|), old(token.cancelled));
              stops == t.stops && emitted == old(emitted) + t.states && waits == old(waits) + t.waits
                && token.cancelled == t.cancelled
      ensures Persisted() && (stops.None? && !token.cancelled ==> next == BackoffMs(|waits|))
    {
      next := backoff;
      var b := token.IsCancelled(attempt.cancelFirst);
      if b {
        return Some(true), next;
      }
      CycleTrace(attempt.cycle, false);
      var end := RunOneCycle(attempt.cycle);
      if end == Running {
        return Some(false), next;
      }
      stops := None;
      next := FIRST_BACKOFF;
      if end == EndedErr {
        Disconnect(backoff);
        b := token.IsCancelled(attempt.cancelInWait);
        stops := if b then Some(true) else None;
        BackoffDoubles(old(|waits|));
        next := if 2 * backoff <= MAX_BACKOFF then 2 * backoff else MAX_BACKOFF;
      }
    }

    /** Runs until cancellation, doubling the wait after each failed cycle and resetting it after a good one. */
    method Run(attempts: seq<Attempt>) returns (returned: bool)
      requires emitted == [] && waits == []
      modifies this, store`accountStates, token
      ensures RunOutcome(returned, emitted, waits, token.cancelled) == RunOf(attempts, old(token.cancelled))
      ensures Persisted()
    {
      var backoff := FIRST_BACKOFF;
      ghost var cycles, total := Cycles(attempts), RunOf(attempts, token.cancelled);
      for k := 0 to |attempts|
        invariant Persisted()
        invariant total == Join(emitted, waits, Ran(attempts[k..], cycles[k..], |waits|, token.cancelled))
        invariant !token.cancelled ==> backoff == BackoffMs(|waits|)
      {
        JoinTry(emitted, waits, attempts, cycles, k, token.cancelled);
        var stops: Option<bool>;
        stops, backoff := TryCycle(attempts[k], backoff);
        if stops.Some? {
          return stops.value;
        }
      }
      returned := false;
    }
  }

  lemma AfterTurn(sofar: seq<ConnectionState>, polls: bool, rounds: seq<Round>, k: nat, cancelled: bool)
    requires k < |rounds|
    ensures var turn := Turn(polls, rounds[k], cancelled);
            After(sofar, Dwell(polls, rounds[k..], cancelled)) ==
            if turn.end == Running then After(sofar + turn.states, Dwell(polls, rounds[k + 1..], turn.cancelled))
            else turn.(states := sofar + turn.states)
  {
    var turn := Turn(polls, rounds[k], cancelled);
    assert rounds[k..][1..] == rounds[k + 1..];
    var rest := Dwell(polls, rounds[k + 1..], turn.cancelled);
    assert sofar + (turn.states + rest.states) == sofar + turn.states + rest.states;
  }

  lemma JoinTry(states: seq<ConnectionState>, waits: seq<nat>, attempts: seq<Attempt>, cycles: seq<CycleOutcome>,
                k: nat, cancelled: bool)
    requires |cycles| == |attempts| && k < |attempts|
    ensures var t := Try(attempts[k], cycles[k], |waits|, cancelled);
            Join(states, waits, Ran(attempts[k..], cycles[k..], |waits|, cancelled)) ==
            if t.stops.Some? then RunOutcome(t.stops.value, states + t.states, waits + t.waits, t.cancelled)
            else Join(states + t.states, waits + t.waits,
                      Ran(attempts[k + 1..], cycles[k + 1..], |waits + t.waits|, t.cancelled))
  {
    var t := Try(attempts[k], cycles[k], |waits|, cancelled);
    assert attempts[k..][1..] == attempts[k + 1..] && cycles[k..][1..] == cycles[k + 1..];
    var rest := Ran(attempts[k + 1..], cycles[k + 1..], |waits + t.waits|, t.cancelled);
    assert states + (t.states + rest.states) == states + t.states + rest.states;
    assert waits + (t.waits + rest.waits) == waits + t.waits + rest.waits;
  }
}
