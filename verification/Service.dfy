/**
 The service over its whole life: the outer loop of `RunLoop` with the folder
 passes of `SyncPass` in place of their outcomes. Each connection state is emitted
 in a world, and the worlds in which Idle is emitted have converged.
 */
module Service {
  import opened Wrappers
  import opened Store
  import opened Wire
  import opened ReferenceStore
  import opened FolderProtocol
  import opened FolderInvariant
  import opened FolderSafety
  import opened SyncPass
  import opened PassTheorems
  import Hierarchy
  import RunLoop
  import Roles
  import Session

  // ----- Inputs -----

  /** One folder of a sweep: whether a cancellation arrives before it, and its pass. */
  datatype Call = Call(cancelFirst: bool, visit: Visit)

  /** Which rows the listing before a sweep can read. */
  datatype Reads = Reads(listOk: bool, rowRead: nat -> bool)

  datatype Round = Round(cancelFirst: bool, idle: RunLoop.IdleOutcome, cancelAfter: bool, listing: Reads,
                         calls: seq<Call>)

  /** `server` is the server's state when LIST is answered; `list` is None when LIST fails. */
  datatype Cycle = Cycle(
    server: Server, connects: bool, list: Option<CommandOutcome>, upsertOk: nat -> bool, busOpen: bool,
    listing: Reads, calls: seq<Call>, polls: bool, rounds: seq<Round>)

  datatype Attempt = Attempt(cancelFirst: bool, cycle: Cycle, cancelInWait: bool)

  // ----- What the service does -----

  /** A connection state, and the world in which it is emitted. */
  datatype Moment = Moment(state: ConnectionState, world: World)

  function States(moments: seq<Moment>): (states: seq<ConnectionState>)
    ensures |states| == |moments|
  {
    seq(|moments|, i requires 0 <= i < |moments| => moments[i].state)
  }

  datatype Swept = Swept(end: RunLoop.SweepEnd, world: World)

  datatype Live = Live(end: RunLoop.CycleEnd, moments: seq<Moment>, world: World, cancelled: bool)

  function Rows(c: Config, mail: Mail, listing: Reads): seq<FolderRow> {
    if listing.listOk then Hierarchy.RowsFor(mail.folders, Summaries(mail, c.account), listing.rowRead) else []
  }

  function Dropped(w: World): World {
    w.(client := Down, seen := map[])
  }

  /** Passes in turn, until one fails or the service is cancelled. */
  function Sweep(c: Config, w: World, calls: seq<Call>): Swept
    decreases |calls|
  {
    if calls == [] || !w.client.Sweeping? || w.client.todo == [] then Swept(RunLoop.SweptAll, w)
    else if calls[0].cancelFirst then Swept(RunLoop.SweepCancelled, w)
    else
      var after := AfterPass(c, w, calls[0].visit.input, calls[0].visit.s2);
      if Pass(w.mail, c, w.client.todo[0], calls[0].visit.input).ok then Sweep(c, after, calls[1..])
      else Swept(RunLoop.SweepFailed, after)
  }

  /** What the sweep comes to once it ends, `before` being emitted already. */
  function Settle(swept: Swept, before: seq<Moment>, idles: bool): Live {
    match swept.end
    case SweepCancelled => Live(RunLoop.EndedOk, before, swept.world, true)
    case SweepFailed => Live(RunLoop.EndedErr, before, swept.world, false)
    case SweptAll =>
      var rest := swept.world.(client := AtRest);
      Live(RunLoop.Running, before + if idles then [Moment(Idle, rest)] else [], rest, false)
  }

  function Listed(c: Config, w: World, listing: Reads): World {
    w.(client := Sweeping(Rows(c, w.mail, listing)), seen := map[])
  }

  function Turn(c: Config, w: World, polls: bool, r: Round, cancelled: bool): Live {
    if cancelled || r.cancelFirst then Live(RunLoop.EndedOk, [], w, true)
    else if !polls && r.idle.IdleFails? then Live(RunLoop.EndedErr, [], w, false)
    else if !polls && r.cancelAfter then Live(RunLoop.EndedOk, [], w, true)
    else if !polls && r.idle.IdleEmpty? then Live(RunLoop.Running, [], w, false)
    else Settle(Sweep(c, Listed(c, w, r.listing), r.calls), [Moment(Syncing, w)], !polls)
  }

  function Dwell(c: Config, w: World, polls: bool, rounds: seq<Round>, cancelled: bool): Live
    decreases |rounds|
  {
    if rounds == [] then Live(RunLoop.Running, [], w, cancelled)
    else
      var turn := Turn(c, w, polls, rounds[0], cancelled);
      if turn.end.Running? then After(turn.moments, Dwell(c, turn.world, polls, rounds[1..], turn.cancelled)) else turn
  }

  function After(moments: seq<Moment>, rest: Live): Live {
    rest.(moments := moments + rest.moments)
  }

  function Connected(w: World, cycle: Cycle): World {
    World(cycle.server, w.mail, Client.Hierarchy, map[])
  }

  function Opening(w: World, cycle: Cycle): seq<Moment> {
    [Moment(Connecting, w), Moment(Authenticating, Connected(w, cycle)), Moment(Syncing, Connected(w, cycle))]
  }

  predicate ListOk(cycle: Cycle) {
    cycle.list.Some? && cycle.list.value.IsOk()
  }

  /** The world in which the first sweep of a cycle begins. */
  function FirstSweep(c: Config, w: World, cycle: Cycle, rule: Roles.Rule): World
    requires ListOk(cycle)
  {
    var mail := Hierarchy.AfterList(w.mail, c.account, cycle.list.value.data, cycle.upsertOk, rule);
    Listed(c, Connected(w, cycle).(mail := mail), cycle.listing)
  }

  function LiveCycle(c: Config, w: World, cycle: Cycle, rule: Roles.Rule): Live {
    if !cycle.connects then Live(RunLoop.EndedErr, [Moment(Connecting, w)], w, false)
    else if !ListOk(cycle) then Live(RunLoop.EndedErr, Opening(w, cycle), Connected(w, cycle), false)
    else
      var start := FirstSweep(c, w, cycle, rule);
      if !cycle.busOpen then Live(RunLoop.EndedErr, Opening(w, cycle), start, false)
      else
        var settled := Settle(Sweep(c, start, cycle.calls), Opening(w, cycle), !cycle.polls);
        if settled.end.Running? then After(settled.moments, Dwell(c, settled.world, cycle.polls, cycle.rounds, false))
        else settled
  }

  /** What one attempt emits: a failed cycle announces that the connection is gone. */
  function Tried(live: Live): seq<Moment> {
    live.moments + if live.end.EndedErr? then [Moment(Disconnected, Dropped(live.world))] else []
  }

  /** Whether the run goes on to the next attempt. */
  predicate GoesOn(live: Live, attempt: Attempt) {
    live.end.EndedOk? || (live.end.EndedErr? && !live.cancelled && !attempt.cancelInWait)
  }

  /** All attempts of a run, `run` being what an attempt's cycle does. */
  function LifeWith(run: (World, Attempt) -> Live, w: World, attempts: seq<Attempt>, cancelled: bool): seq<Moment>
    decreases |attempts|
  {
    if attempts == [] || cancelled || attempts[0].cancelFirst then []
    else
      var live := run(w, attempts[0]);
      if GoesOn(live, attempts[0]) then Tried(live) + LifeWith(run, Dropped(live.world), attempts[1..], live.cancelled)
      else Tried(live)
  }

  function Runner(c: Config, rule: Roles.Rule): (World, Attempt) -> Live {
    (w: World, attempt: Attempt) => LiveCycle(c, w, attempt.cycle, rule)
  }

  function Life(c: Config, w: World, attempts: seq<Attempt>, rule: Roles.Rule, cancelled: bool): seq<Moment> {
    LifeWith(Runner(c, rule), w, attempts, cancelled)
  }

  // ----- The scripts behind it -----

  function Tries(c: Config, w: World, calls: seq<Call>): seq<RunLoop.FolderTry>
    decreases |calls|
  {
    if calls == [] || !w.client.Sweeping? || w.client.todo == [] then []
    else
      var input := calls[0].visit.input;
      [RunLoop.FolderTry(calls[0].cancelFirst, Pass(w.mail, c, w.client.todo[0], input).ok)]
      + Tries(c, AfterPass(c, w, input, calls[0].visit.s2), calls[1..])
  }

  function RoundScript(c: Config, w: World, r: Round): RunLoop.Round {
    RunLoop.Round(r.cancelFirst, r.idle, r.cancelAfter, Tries(c, Listed(c, w, r.listing), r.calls))
  }

  function RoundScripts(c: Config, w: World, polls: bool, rounds: seq<Round>, cancelled: bool): seq<RunLoop.Round>
    decreases |rounds|
  {
    if rounds == [] then []
    else
      var turn := Turn(c, w, polls, rounds[0], cancelled);
      [RoundScript(c, w, rounds[0])] + RoundScripts(c, turn.world, polls, rounds[1..], turn.cancelled)
  }

  function CycleScript(c: Config, w: World, cycle: Cycle, rule: Roles.Rule): RunLoop.CycleScript {
    if !ListOk(cycle) then RunLoop.CycleScript(cycle.connects, false, cycle.busOpen, [], cycle.polls, [])
    else
      var start := FirstSweep(c, w, cycle, rule);
      var settled := Settle(Sweep(c, start, cycle.calls), Opening(w, cycle), !cycle.polls);
      RunLoop.CycleScript(cycle.connects, true, cycle.busOpen, Tries(c, start, cycle.calls), cycle.polls,
                          RoundScripts(c, settled.world, cycle.polls, cycle.rounds, false))
  }

  function ScriptsWith(run: (World, Attempt) -> Live, script: (World, Attempt) -> RunLoop.Attempt, w: World,
                       attempts: seq<Attempt>): seq<RunLoop.Attempt>
    decreases |attempts|
  {
    if attempts == [] then []
    else
      [script(w, attempts[0])] + ScriptsWith(run, script, Dropped(run(w, attempts[0]).world), attempts[1..])
  }

  function Scripter(c: Config, rule: Roles.Rule): (World, Attempt) -> RunLoop.Attempt {
    (w: World, attempt: Attempt) =>
      RunLoop.Attempt(attempt.cancelFirst, CycleScript(c, w, attempt.cycle, rule), attempt.cancelInWait)
  }

  function Scripts(c: Config, w: World, attempts: seq<Attempt>, rule: Roles.Rule): seq<RunLoop.Attempt> {
    ScriptsWith(Runner(c, rule), Scripter(c, rule), w, attempts)
  }

  lemma StatesJoin(a: seq<Moment>, b: seq<Moment>)
    ensures States(a + b) == States(a) + States(b)
  {
  }

  /** What a script says of a call, whatever the worlds. */
  predicate Matches(live: Live, script: RunLoop.CycleOutcome) {
    live.end == script.end && States(live.moments) == script.states && live.cancelled == script.cancelled
  }

  lemma {:induction false} SweepMatches(c: Config, w: World, calls: seq<Call>)
    ensures var script := RunLoop.Sweep(Tries(c, w, calls), false);
            Sweep(c, w, calls).end == script.end && (script.cancelled <==> script.end.SweepCancelled?)
    decreases |calls|
  {
    if calls != [] && w.client.Sweeping? && w.client.todo != [] {
      SweepMatches(c, AfterPass(c, w, calls[0].visit.input, calls[0].visit.s2), calls[1..]);
    }
  }

  lemma SettleMatches(c: Config, w: World, calls: seq<Call>, before: seq<Moment>, idles: bool)
    ensures var live, script := Settle(Sweep(c, w, calls), before, idles), RunLoop.Sweep(Tries(c, w, calls), false);
            && live.cancelled == script.cancelled
            && States(live.moments) == States(before) + (if script.end.SweptAll? && idles then [Idle] else [])
            && live.end == match script.end
                           case SweptAll => RunLoop.Running
                           case SweepCancelled => RunLoop.EndedOk
                           case SweepFailed => RunLoop.EndedErr
  {
    SweepMatches(c, w, calls);
    var live := Settle(Sweep(c, w, calls), before, idles);
    StatesJoin(before, if idles && Sweep(c, w, calls).end.SweptAll? then [Moment(Idle, live.world)] else []);
  }

  lemma ResyncMatches(c: Config, w: World, start: World, calls: seq<Call>, idles: bool)
    ensures Matches(Settle(Sweep(c, start, calls), [Moment(Syncing, w)], idles),
                    RunLoop.Resync(Tries(c, start, calls), if idles then [Idle] else []))
  {
    SettleMatches(c, start, calls, [Moment(Syncing, w)], idles);
    assert States([Moment(Syncing, w)]) == [Syncing];
  }

  lemma TurnMatches(c: Config, w: World, polls: bool, r: Round, cancelled: bool)
    ensures Matches(Turn(c, w, polls, r, cancelled), RunLoop.Turn(polls, RoundScript(c, w, r), cancelled))
  {
    ResyncMatches(c, w, Listed(c, w, r.listing), r.calls, !polls);
  }

  lemma {:induction false} DwellMatches(c: Config, w: World, polls: bool, rounds: seq<Round>, cancelled: bool)
    ensures Matches(Dwell(c, w, polls, rounds, cancelled),
                    RunLoop.Dwell(polls, RoundScripts(c, w, polls, rounds, cancelled), cancelled))
    decreases |rounds|
  {
    if rounds != [] {
      var turn := Turn(c, w, polls, rounds[0], cancelled);
      TurnMatches(c, w, polls, rounds[0], cancelled);
      var rest := RoundScripts(c, turn.world, polls, rounds[1..], turn.cancelled);
      assert ([RoundScript(c, w, rounds[0])] + rest)[1..] == rest;
      if turn.end.Running? {
        DwellMatches(c, turn.world, polls, rounds[1..], turn.cancelled);
        StatesJoin(turn.moments, Dwell(c, turn.world, polls, rounds[1..], turn.cancelled).moments);
      }
    }
  }

  /** A cycle that gets as far as its first sweep, as a script. */
  function SweptScript(sweep: seq<RunLoop.FolderTry>, polls: bool, rounds: seq<RunLoop.Round>): RunLoop.CycleScript {
    RunLoop.CycleScript(true, true, true, sweep, polls, rounds)
  }

  lemma EndedCycleMatches(c: Config, w: World, cycle: Cycle, start: World, rounds: seq<RunLoop.Round>)
    requires !Settle(Sweep(c, start, cycle.calls), Opening(w, cycle), !cycle.polls).end.Running?
    ensures Matches(Settle(Sweep(c, start, cycle.calls), Opening(w, cycle), !cycle.polls),
                    RunLoop.Cycle(SweptScript(Tries(c, start, cycle.calls), cycle.polls, rounds), false))
  {
    SettleMatches(c, start, cycle.calls, Opening(w, cycle), !cycle.polls);
    assert States(Opening(w, cycle)) == [Connecting, Authenticating, Syncing];
  }

  lemma RestingCycleMatches(c: Config, w: World, cycle: Cycle, start: World, settled: Live)
    requires settled == Settle(Sweep(c, start, cycle.calls), Opening(w, cycle), !cycle.polls) && settled.end.Running?
    ensures var rounds := RoundScripts(c, settled.world, cycle.polls, cycle.rounds, false);
            Matches(After(settled.moments, Dwell(c, settled.world, cycle.polls, cycle.rounds, false)),
                    RunLoop.Cycle(SweptScript(Tries(c, start, cycle.calls), cycle.polls, rounds), false))
  {
    SettleMatches(c, start, cycle.calls, Opening(w, cycle), !cycle.polls);
    assert States(Opening(w, cycle)) == [Connecting, Authenticating, Syncing];
    DwellMatches(c, settled.world, cycle.polls, cycle.rounds, false);
    var rounds := RoundScripts(c, settled.world, cycle.polls, cycle.rounds, false);
    RestingScript(Tries(c, start, cycle.calls), cycle.polls, rounds);
    AfterMatches(settled.moments, Dwell(c, settled.world, cycle.polls, cycle.rounds, false),
                 RunLoop.Dwell(cycle.polls, rounds, false));
  }

  lemma RestingScript(sweep: seq<RunLoop.FolderTry>, polls: bool, rounds: seq<RunLoop.Round>)
    requires RunLoop.Sweep(sweep, false) == RunLoop.SweepOutcome(RunLoop.SweptAll, false)
    ensures RunLoop.Cycle(SweptScript(sweep, polls, rounds), false)
         == RunLoop.After([Connecting, Authenticating, Syncing] + if polls then [] else [Idle],
                          RunLoop.Dwell(polls, rounds, false))
  {
    assert [Connecting, Authenticating, Syncing] + [] == [Connecting, Authenticating, Syncing];
  }

  lemma AfterMatches(moments: seq<Moment>, live: Live, script: RunLoop.CycleOutcome)
    requires Matches(live, script)
    ensures Matches(After(moments, live), RunLoop.After(States(moments), script))
  {
    StatesJoin(moments, live.moments);
  }

  lemma CycleMatches(c: Config, w: World, cycle: Cycle, rule: Roles.Rule)
    ensures Matches(LiveCycle(c, w, cycle, rule), RunLoop.Cycle(CycleScript(c, w, cycle, rule), false))
  {
    assert States(Opening(w, cycle)) == [Connecting, Authenticating, Syncing];
    assert States([Moment(Connecting, w)]) == [Connecting];
    if ListOk(cycle) {
      var start := FirstSweep(c, w, cycle, rule);
      var settled := Settle(Sweep(c, start, cycle.calls), Opening(w, cycle), !cycle.polls);
      if settled.end.Running? {
        RestingCycleMatches(c, w, cycle, start, settled);
      } else {
        EndedCycleMatches(c, w, cycle, start, RoundScripts(c, settled.world, cycle.polls, cycle.rounds, false));
      }
    }
  }

  /** An attempt does what its script says. */
  predicate Agrees(live: Live, attempt: Attempt, script: RunLoop.Attempt) {
    && Matches(live, RunLoop.Cycle(script.cycle, false))
    && script.cancelFirst == attempt.cancelFirst && script.cancelInWait == attempt.cancelInWait
  }

  lemma TriedMatches(live: Live, attempt: Attempt, script: RunLoop.Attempt, failures: nat)
    requires Agrees(live, attempt, script) && !attempt.cancelFirst
    ensures var t := RunLoop.Try(script, RunLoop.Cycle(script.cycle, false), failures, false);
            && States(Tried(live)) == t.states
            && (GoesOn(live, attempt) <==> t.stops.None?) && (GoesOn(live, attempt) ==> t.cancelled == live.cancelled)
  {
    StatesJoin(live.moments, [Moment(Disconnected, Dropped(live.world))]);
    assert live.moments + [] == live.moments;
  }

  /** What a run of scripts emits. */
  function Emitted(scripts: seq<RunLoop.Attempt>, failures: nat, cancelled: bool): seq<ConnectionState> {
    RunLoop.Ran(scripts, RunLoop.Cycles(scripts), failures, cancelled).states
  }

  lemma StoppedRun(scripts: seq<RunLoop.Attempt>, failures: nat, cancelled: bool)
    requires scripts == [] || cancelled || scripts[0].cancelFirst
    ensures Emitted(scripts, failures, cancelled) == []
  {
  }

  /** Whatever attempts do, if each does what its script says, so does a run of them. */
  lemma {:induction false} RunsAgree(run: (World, Attempt) -> Live, script: (World, Attempt) -> RunLoop.Attempt,
                                     w: World, attempts: seq<Attempt>, failures: nat, cancelled: bool)
    requires forall v, a :: Agrees(run(v, a), a, script(v, a))
    ensures States(LifeWith(run, w, attempts, cancelled))
            == Emitted(ScriptsWith(run, script, w, attempts), failures, cancelled)
    decreases |attempts|
  {
    var scripts := ScriptsWith(run, script, w, attempts);
    if attempts != [] {
      assert Agrees(run(w, attempts[0]), attempts[0], script(w, attempts[0]));
      assert scripts[0] == script(w, attempts[0]);
    }
    if attempts == [] || cancelled || attempts[0].cancelFirst {
      StoppedRun(scripts, failures, cancelled);
    } else {
      var live := run(w, attempts[0]);
      var next := Dropped(live.world);
      var rest := ScriptsWith(run, script, next, attempts[1..]);
      var waits := FirstAgrees(live, attempts[0], script(w, attempts[0]), rest, failures);
      RunsAgree(run, script, next, attempts[1..], failures + waits, live.cancelled);
      StatesJoin(Tried(live), LifeWith(run, next, attempts[1..], live.cancelled));
    }
  }

  /** The first attempt of a run of scripts, and what the rest starts from. */
  lemma FirstAgrees(live: Live, attempt: Attempt, script: RunLoop.Attempt, rest: seq<RunLoop.Attempt>, failures: nat)
    returns (waits: nat)
    requires Agrees(live, attempt, script) && !attempt.cancelFirst
    ensures Emitted([script] + rest, failures, false) ==
            if GoesOn(live, attempt) then States(Tried(live)) + Emitted(rest, failures + waits, live.cancelled)
            else States(Tried(live))
  {
    TriedMatches(live, attempt, script, failures);
    RanSteps(script, rest, failures);
    waits := |RunLoop.Try(script, RunLoop.Cycle(script.cycle, false), failures, false).waits|;
  }

  /** The states the service emits over its life are those of the scripts behind it. */
  lemma LifeIsScripted(c: Config, w: World, attempts: seq<Attempt>, rule: Roles.Rule, failures: nat, cancelled: bool)
    ensures States(Life(c, w, attempts, rule, cancelled)) == Emitted(Scripts(c, w, attempts, rule), failures, cancelled)
  {
    forall v, a
      ensures Agrees(Runner(c, rule)(v, a), a, Scripter(c, rule)(v, a))
    {
      CycleMatches(c, v, a.cycle, rule);
    }
    RunsAgree(Runner(c, rule), Scripter(c, rule), w, attempts, failures, cancelled);
  }

  /** A run of scripts is its first attempt and, when that goes on, the rest. */
  lemma RanSteps(tried: RunLoop.Attempt, rest: seq<RunLoop.Attempt>, failures: nat)
    requires !tried.cancelFirst
    ensures var t := RunLoop.Try(tried, RunLoop.Cycle(tried.cycle, false), failures, false);
            Emitted([tried] + rest, failures, false) ==
            if t.stops.Some? then t.states else t.states + Emitted(rest, failures + |t.waits|, t.cancelled)
  {
    var all := [tried] + rest;
    assert all[1..] == rest;
    assert RunLoop.Cycles(all) == [RunLoop.Cycle(tried.cycle, false)] + RunLoop.Cycles(rest);
    assert RunLoop.Cycles(all)[1..] == RunLoop.Cycles(rest);
  }

  // ----- What holds when Idle is emitted -----

  /** The passes that are made conform. */
  ghost predicate CallsConform(c: Config, w: World, calls: seq<Call>)
    decreases |calls|
  {
    && w.client.Sweeping? && |calls| == |w.client.todo|
    && (calls != [] && !calls[0].cancelFirst ==>
          var v := calls[0].visit;
          && ServerMoves(w.server, v.s1, None) && ServerMoves(v.s1, v.s2, Some(w.client.todo[0].name))
          && Conforms(w.mail, c, w.client.todo[0], v.input, v.s1, v.s2)
          && (Pass(w.mail, c, w.client.todo[0], v.input).ok ==>
                CallsConform(c, AfterPass(c, w, v.input, v.s2), calls[1..])))
  }

  ghost predicate RoundsConform(c: Config, w: World, polls: bool, rounds: seq<Round>, cancelled: bool)
    decreases |rounds|
  {
    rounds != [] ==>
      && CallsConform(c, Listed(c, w, rounds[0].listing), rounds[0].calls)
      && var turn := Turn(c, w, polls, rounds[0], cancelled);
         (turn.end.Running? ==> RoundsConform(c, turn.world, polls, rounds[1..], turn.cancelled))
  }

  ghost predicate CycleConforms(c: Config, w: World, cycle: Cycle, rule: Roles.Rule) {
    && ServerMoves(w.server, cycle.server, None)
    && (ListOk(cycle) ==>
          var start := FirstSweep(c, w, cycle, rule);
          && Hierarchy.ListAnswer(cycle.server, cycle.list.value.data)
          && CallsConform(c, start, cycle.calls)
          && var settled := Settle(Sweep(c, start, cycle.calls), Opening(w, cycle), !cycle.polls);
             (settled.end.Running? ==> RoundsConform(c, settled.world, cycle.polls, cycle.rounds, false)))
  }

  ghost predicate LifeConforms(c: Config, w: World, attempts: seq<Attempt>, rule: Roles.Rule)
    decreases |attempts|
  {
    attempts != [] ==>
      && CycleConforms(c, w, attempts[0].cycle, rule)
      && LifeConforms(c, Dropped(LiveCycle(c, w, attempts[0].cycle, rule).world), attempts[1..], rule)
  }

  /** A world with everything fetched: at rest, and reached by the protocol. */
  ghost predicate Rested(c: Config, w: World) {
    Reachable(c, w) && w.client == AtRest
  }

  ghost predicate IdlesRested(c: Config, moments: seq<Moment>) {
    forall m :: m in moments && m.state == Idle ==> Rested(c, m.world)
  }

  /** The call leaves a reachable world, at rest while the cycle goes on, and idles only at rest. */
  ghost predicate LiveOk(c: Config, live: Live) {
    Reachable(c, live.world) && IdlesRested(c, live.moments) && (live.end.Running? ==> live.world.client == AtRest)
  }

  lemma {:induction false} SweepIsReached(c: Config, w: World, calls: seq<Call>)
    requires Reachable(c, w) && CallsConform(c, w, calls)
    ensures var swept := Sweep(c, w, calls);
            Reachable(c, swept.world) && (swept.end.SweptAll? ==> swept.world.client == Sweeping([]))
    decreases |calls|
  {
    if calls != [] && !calls[0].cancelFirst {
      var v := calls[0].visit;
      PassReaches(c, w, v.input, v.s1, v.s2);
      if Pass(w.mail, c, w.client.todo[0], v.input).ok {
        SweepIsReached(c, AfterPass(c, w, v.input, v.s2), calls[1..]);
      }
    }
  }

  lemma SettleIsOk(c: Config, w: World, calls: seq<Call>, before: seq<Moment>, idles: bool)
    requires Reachable(c, w) && CallsConform(c, w, calls) && IdlesRested(c, before)
    ensures LiveOk(c, Settle(Sweep(c, w, calls), before, idles))
  {
    SweepIsReached(c, w, calls);
    var swept := Sweep(c, w, calls);
    if swept.end.SweptAll? {
      ReachableStep(c, swept.world, swept.world.(client := AtRest), OnClient(FinishSweep));
    }
  }

  lemma ListedIsReached(c: Config, w: World, listing: Reads)
    requires KeepsEpoch(c) && Reachable(c, w) && w.client in {Client.Hierarchy, AtRest}
    ensures Reachable(c, Listed(c, w, listing))
  {
    Hierarchy.ReachableWellFormed(c, w);
    Hierarchy.RowsAreListing(w.mail, c.account, listing.rowRead);
    ReachableStep(c, w, Listed(c, w, listing), OnClient(ListRows(Rows(c, w.mail, listing))));
  }

  lemma TurnIsOk(c: Config, w: World, polls: bool, r: Round, cancelled: bool)
    requires KeepsEpoch(c) && Rested(c, w) && CallsConform(c, Listed(c, w, r.listing), r.calls)
    ensures LiveOk(c, Turn(c, w, polls, r, cancelled))
  {
    ListedIsReached(c, w, r.listing);
    SettleIsOk(c, Listed(c, w, r.listing), r.calls, [Moment(Syncing, w)], !polls);
  }

  lemma {:induction false} DwellIsOk(c: Config, w: World, polls: bool, rounds: seq<Round>, cancelled: bool)
    requires KeepsEpoch(c) && Rested(c, w) && RoundsConform(c, w, polls, rounds, cancelled)
    ensures LiveOk(c, Dwell(c, w, polls, rounds, cancelled))
    decreases |rounds|
  {
    if rounds != [] {
      var turn := Turn(c, w, polls, rounds[0], cancelled);
      TurnIsOk(c, w, polls, rounds[0], cancelled);
      if turn.end.Running? {
        DwellIsOk(c, turn.world, polls, rounds[1..], turn.cancelled);
      }
    }
  }

  lemma CycleIsOk(c: Config, w: World, cycle: Cycle, rule: Roles.Rule)
    requires KeepsEpoch(c) && Reachable(c, w) && w.client == Down && w.seen == map[] && CycleConforms(c, w, cycle, rule)
    ensures LiveOk(c, LiveCycle(c, w, cycle, rule))
  {
    if cycle.connects {
      ConnectedIsReached(c, w, cycle);
      if ListOk(cycle) {
        var connected, start := Connected(w, cycle), FirstSweep(c, w, cycle, rule);
        Hierarchy.ListReaches(c, connected, cycle.list.value.data, cycle.upsertOk, rule);
        ListedIsReached(c, start.(client := Client.Hierarchy, seen := map[]), cycle.listing);
        SettleIsOk(c, start, cycle.calls, Opening(w, cycle), !cycle.polls);
        var settled := Settle(Sweep(c, start, cycle.calls), Opening(w, cycle), !cycle.polls);
        if cycle.busOpen && settled.end.Running? {
          DwellIsOk(c, settled.world, cycle.polls, cycle.rounds, false);
        }
      }
    }
  }

  lemma ConnectedIsReached(c: Config, w: World, cycle: Cycle)
    requires Reachable(c, w) && w.client == Down && w.seen == map[] && ServerMoves(w.server, cycle.server, None)
    ensures Reachable(c, Connected(w, cycle))
  {
    MovingReaches(c, w, cycle.server, None);
    ReachableStep(c, w.(server := cycle.server), Connected(w, cycle), OnClient(Connect));
  }

  lemma {:induction false} LifeIdlesRested(c: Config, w: World, attempts: seq<Attempt>, rule: Roles.Rule,
                                           cancelled: bool)
    requires KeepsEpoch(c) && Reachable(c, w) && w.client == Down && w.seen == map[]
             && LifeConforms(c, w, attempts, rule)
    ensures IdlesRested(c, Life(c, w, attempts, rule, cancelled))
    decreases |attempts|
  {
    if attempts != [] {
      var live := LiveCycle(c, w, attempts[0].cycle, rule);
      CycleIsOk(c, w, attempts[0].cycle, rule);
      ReachableStep(c, live.world, Dropped(live.world), OnClient(Drop));
      LifeIdlesRested(c, Dropped(live.world), attempts[1..], rule, live.cancelled);
    }
  }

  /**
   Convergence at Idle, over the whole life of the service: however often cycles
   fail, are cancelled or are cut off, and whatever the server does meanwhile, each
   time Idle is emitted every folder of the last sweep whose SELECT was OK stores
   all that is still live below the UIDNEXT it reported and carries the cursors it
   reported, no folder mixes UID epochs and none has a gap.
   */
  lemma IdleMeansConverged(c: Config, w: World, attempts: seq<Attempt>, rule: Roles.Rule, m: Moment)
    requires KeepsEpoch(c) && Reachable(c, w) && w.client == Down && w.seen == map[]
             && LifeConforms(c, w, attempts, rule)
    requires m in Life(c, w, attempts, rule, false) && m.state == Idle
    ensures m.world.client == AtRest && ConvergedAtRest(m.world) && CursorsAtRest(m.world)
    ensures EpochPure(m.world) && NoGaps(m.world)
  {
    LifeIdlesRested(c, w, attempts, rule, false);
    var ws, steps :| IsRun(c, ws, steps) && ws[|steps|] == m.world;
    RunsAreSafe(c, ws, steps);
  }

  /** The emitted states are a legal trace, with the waits of the closed form between the cycles. */
  lemma LifeIsLegal(c: Config, w: World, attempts: seq<Attempt>, rule: Roles.Rule)
    ensures RunLoop.Legal(Disconnected, States(Life(c, w, attempts, rule, false)))
  {
    LifeIsScripted(c, w, attempts, rule, 0, false);
    RunLoop.RunTrace(Scripts(c, w, attempts, rule), false);
  }

  // ----- When the service sweeps, and what a sweep leaves -----

  function Visits(calls: seq<Call>): (visits: seq<Visit>)
    ensures |visits| == |calls| && forall i :: 0 <= i < |calls| ==> visits[i] == calls[i].visit
  {
    if calls == [] then [] else [calls[0].visit] + Visits(calls[1..])
  }

  /** One call for each folder due, none cancelled, and every pass ends well. */
  predicate GoesThrough(c: Config, w: World, calls: seq<Call>)
    decreases |calls|
  {
    && w.client.Sweeping? && |calls| == |w.client.todo|
    && (calls != [] ==>
          var v := calls[0].visit;
          && !calls[0].cancelFirst && Pass(w.mail, c, w.client.todo[0], v.input).ok
          && GoesThrough(c, AfterPass(c, w, v.input, v.s2), calls[1..]))
  }

  lemma {:induction false} SweepIsSweepEnd(c: Config, w: World, calls: seq<Call>)
    requires GoesThrough(c, w, calls)
    ensures Sweep(c, w, calls) == Swept(RunLoop.SweptAll, SweepEnd(c, w, Visits(calls)))
    decreases |calls|
  {
    if calls != [] {
      var v := calls[0].visit;
      assert Visits(calls)[1..] == Visits(calls[1..]);
      SweepIsSweepEnd(c, AfterPass(c, w, v.input, v.s2), calls[1..]);
    }
  }

  /** A sweep that conforms and goes through is a clean one. */
  lemma {:induction false} ConformingIsClean(c: Config, w: World, calls: seq<Call>)
    requires CallsConform(c, w, calls) && GoesThrough(c, w, calls)
    ensures CleanSweep(c, w, Visits(calls))
    decreases |calls|
  {
    if calls != [] {
      var v := calls[0].visit;
      assert Visits(calls)[1..] == Visits(calls[1..]);
      ConformingIsClean(c, AfterPass(c, w, v.input, v.s2), calls[1..]);
    }
  }

  /** The world in which a sweep of these rows starts. */
  function StartOf(w: World, rows: seq<FolderRow>): World {
    World(w.server, w.mail, Sweeping(rows), map[])
  }

  /** The rows a sweep goes through: the stored ones of the account that can be read, when they can be listed at all. */
  ghost predicate AreReadable(c: Config, mail: Mail, listing: Reads, rows: seq<FolderRow>) {
    if listing.listOk then
      exists at :: Picks(mail.folders, Hierarchy.Readable(c.account, listing.rowRead), rows, at)
    else rows == []
  }

  /** The round begins a sweep: polling, or its IDLE brought something, and nothing is cancelled up to there. */
  predicate Wakes(polls: bool, r: Round) {
    !r.cancelFirst && (polls || (r.idle == RunLoop.IdleWoke && !r.cancelAfter))
  }

  /**
   After a round that wakes, whatever rounds came before it: the service sweeps the
   folders then stored, ends where those passes end, at rest, and announces Syncing
   before and, while idling, Idle after it.
   */
  lemma WokenRoundSweeps(c: Config, w: World, polls: bool, rounds: seq<Round>, r: Round) returns (rows: seq<FolderRow>)
    requires var before := Dwell(c, w, polls, rounds, false);
             before.end.Running? && !before.cancelled && WellFormed(before.world.mail)
    requires Wakes(polls, r)
    ensures AreReadable(c, Dwell(c, w, polls, rounds, false).world.mail, r.listing, rows)
    ensures var before := Dwell(c, w, polls, rounds, false);
            var start := StartOf(before.world, rows);
            var rest := SweepEnd(c, start, Visits(r.calls)).(client := AtRest);
            GoesThrough(c, start, r.calls) ==>
              Dwell(c, w, polls, rounds + [r], false) ==
              Live(RunLoop.Running,
                   before.moments + [Moment(Syncing, before.world)] + (if polls then [] else [Moment(Idle, rest)]),
                   rest, false)
  {
    var before := Dwell(c, w, polls, rounds, false);
    rows := Rows(c, before.world.mail, r.listing);
    if r.listing.listOk {
      var at := Hierarchy.RowsExactly(before.world.mail, c.account, r.listing.rowRead);
    }
    DwellAppend(c, w, polls, rounds, r);
    var start := StartOf(before.world, rows);
    if GoesThrough(c, start, r.calls) {
      SweepIsSweepEnd(c, start, r.calls);
      Associate(before.moments, [Moment(Syncing, before.world)],
                if polls then []
                else [Moment(Idle, SweepEnd(c, start, Visits(r.calls)).(client := AtRest))]);
    }
  }

  /** A round whose IDLE brought nothing emits nothing and changes nothing. */
  lemma EmptyRoundRests(c: Config, w: World, rounds: seq<Round>, r: Round)
    requires Dwell(c, w, false, rounds, false).end.Running? && !Dwell(c, w, false, rounds, false).cancelled
    requires !r.cancelFirst && r.idle == RunLoop.IdleEmpty && !r.cancelAfter
    ensures Dwell(c, w, false, rounds + [r], false) == Dwell(c, w, false, rounds, false)
  {
    DwellAppend(c, w, false, rounds, r);
    var before := Dwell(c, w, false, rounds, false);
    assert before.moments + [] == before.moments;
  }

  lemma {:induction false} DwellAppend(c: Config, w: World, polls: bool, rounds: seq<Round>, r: Round)
    requires Dwell(c, w, polls, rounds, false).end.Running? && !Dwell(c, w, polls, rounds, false).cancelled
    ensures var before := Dwell(c, w, polls, rounds, false);
            Dwell(c, w, polls, rounds + [r], false)
            == After(before.moments, Turn(c, before.world, polls, r, false))
    decreases |rounds|
  {
    var all := rounds + [r];
    if rounds == [] {
      assert all[1..] == [];
      var turn := Turn(c, w, polls, r, false);
      assert turn.moments + [] == turn.moments && [] + turn.moments == turn.moments;
    } else {
      var turn := Turn(c, w, polls, rounds[0], false);
      assert all[1..] == rounds[1..] + [r];
      RunningTurn(c, w, polls, rounds[0]);
      DwellAppend(c, turn.world, polls, rounds[1..], r);
      var rest := Dwell(c, turn.world, polls, rounds[1..], false);
      Associate(turn.moments, rest.moments, Turn(c, rest.world, polls, r, false).moments);
    }
  }

  lemma RunningTurn(c: Config, w: World, polls: bool, r: Round)
    ensures Turn(c, w, polls, r, false).end.Running? ==> !Turn(c, w, polls, r, false).cancelled
  {
  }

  /**
   New mail is fetched: after a round that wakes, every stored row of the account
   that could be read has been visited, and where its SELECT was OK the store has
   caught up with it, in the world in which Idle is emitted next.
   */
  lemma WokenRoundCovers(c: Config, w: World, polls: bool, rounds: seq<Round>, r: Round, row: FolderRow)
    returns (i: nat)
    requires KeepsEpoch(c) && Rested(c, w) && RoundsConform(c, w, polls, rounds + [r], false)
    requires var before := Dwell(c, w, polls, rounds, false);
             && before.end.Running? && !before.cancelled && Wakes(polls, r) && r.listing.listOk
             && GoesThrough(c, Listed(c, before.world, r.listing), r.calls)
             && row in before.world.mail.folders && row.account == c.account && r.listing.rowRead(row.id)
    ensures i < |r.calls|
    ensures IsAnswered(r.calls[i].visit.input.select) ==>
              var rest := Dwell(c, w, polls, rounds + [r], false).world;
              Hierarchy.CaughtUp(rest.mail, rest.server, row.id, InfoOf(r.calls[i].visit.input.select.value))
  {
    var before := Dwell(c, w, polls, rounds, false);
    RoundsBefore(c, w, polls, rounds, r);
    i := TurnCovers(c, before.world, polls, r, row);
    DwellAppend(c, w, polls, rounds, r);
  }

  lemma TurnCovers(c: Config, w: World, polls: bool, r: Round, row: FolderRow) returns (i: nat)
    requires KeepsEpoch(c) && Rested(c, w) && CallsConform(c, Listed(c, w, r.listing), r.calls)
    requires Wakes(polls, r) && r.listing.listOk && GoesThrough(c, Listed(c, w, r.listing), r.calls)
    requires row in w.mail.folders && row.account == c.account && r.listing.rowRead(row.id)
    ensures i < |r.calls|
    ensures IsAnswered(r.calls[i].visit.input.select) ==>
              var rest := Turn(c, w, polls, r, false).world;
              Hierarchy.CaughtUp(rest.mail, rest.server, row.id, InfoOf(r.calls[i].visit.input.select.value))
  {
    var start := Listed(c, w, r.listing);
    ListedIsReached(c, w, r.listing);
    Hierarchy.ReachableWellFormed(c, w);
    ConformingIsClean(c, start, r.calls);
    SweepConverges(c, start, Visits(r.calls));
    i := Hierarchy.SweepCovers(c, start, r.listing.rowRead, Visits(r.calls), row);
    SweepIsSweepEnd(c, start, r.calls);
  }

  /** Before a further round the service rests, and that round's passes conform from there. */
  lemma {:induction false} RoundsBefore(c: Config, w: World, polls: bool, rounds: seq<Round>, r: Round)
    requires KeepsEpoch(c) && Rested(c, w) && RoundsConform(c, w, polls, rounds + [r], false)
    requires Dwell(c, w, polls, rounds, false).end.Running? && !Dwell(c, w, polls, rounds, false).cancelled
    ensures var before := Dwell(c, w, polls, rounds, false).world;
            Rested(c, before) && CallsConform(c, Listed(c, before, r.listing), r.calls)
    decreases |rounds|
  {
    var all := rounds + [r];
    if rounds != [] {
      var turn := Turn(c, w, polls, rounds[0], false);
      assert all[1..] == rounds[1..] + [r];
      RunningTurn(c, w, polls, rounds[0]);
      TurnIsOk(c, w, polls, rounds[0], false);
      RoundsBefore(c, turn.world, polls, rounds[1..], r);
    }
  }

  /** The cycle reaches the point where it settles in its dwell. */
  predicate Settles(c: Config, w: World, cycle: Cycle, rule: Roles.Rule) {
    && cycle.connects && ListOk(cycle) && cycle.busOpen && cycle.listing.listOk
    && GoesThrough(c, FirstSweep(c, w, cycle, rule), cycle.calls)
  }

  /** What LIST and the passes of a cycle bring, as the hierarchy's own account of a cycle has it. */
  function InputOf(cycle: Cycle): Hierarchy.CycleInput
    requires ListOk(cycle)
  {
    Hierarchy.CycleInput(cycle.list.value.data, cycle.upsertOk, cycle.listing.rowRead, Visits(cycle.calls))
  }

  /** A cycle that settles has swept every listed folder once before its first rest, and goes on from there. */
  lemma CycleSettles(c: Config, w: World, cycle: Cycle, rule: Roles.Rule)
    requires Settles(c, w, cycle, rule)
    ensures var v := Connected(w, cycle);
            var input := InputOf(cycle);
            var rest := SweepEnd(c, Hierarchy.SweepStart(c, v, input, rule), input.visits).(client := AtRest);
            var dwelt := Dwell(c, rest, cycle.polls, cycle.rounds, false);
            LiveCycle(c, w, cycle, rule)
            == dwelt.(moments := [Moment(Connecting, w), Moment(Authenticating, v), Moment(Syncing, v)]
                                 + (if cycle.polls then [] else [Moment(Idle, rest)]) + dwelt.moments)
  {
    var start := FirstSweep(c, w, cycle, rule);
    assert start == Hierarchy.SweepStart(c, Connected(w, cycle), InputOf(cycle), rule);
    SweepIsSweepEnd(c, start, cycle.calls);
  }

  /** What the result of an IDLE means for the loop. */
  function OutcomeOf(r: Session.IdleResult): RunLoop.IdleOutcome
    requires !r.IdleWaiting?
  {
    match r
    case Woke(seen) => if seen == [] then RunLoop.IdleEmpty else RunLoop.IdleWoke
    case IdleFailed => RunLoop.IdleFails
  }

  /**
   From the wire to the sweep: an IDLE that returns starts a sweep exactly when some
   signal it took in brought data that is reported.
   */
  lemma PushStartsSweep(signals: seq<Session.Signal>, n: nat, doneOk: bool, listing: Reads, calls: seq<Call>)
    requires Session.ReturnsAfter(signals, n, doneOk)
    ensures Wakes(false, Round(false, OutcomeOf(Session.Woke(Session.Pushed(signals[..n]))), false, listing, calls))
            <==> exists k :: 0 <= k < n && Session.Reports(signals[k])
  {
    Session.PushedSomething(signals[..n]);
    assert forall k :: 0 <= k < n ==> signals[..n][k] == signals[k];
  }

  // ----- Across connections -----

  /** A new connection starts with the world the last one left. */
  ghost predicate Resumes(moments: seq<Moment>) {
    forall i :: 0 < i < |moments| && moments[i].state == Connecting ==>
      && moments[i - 1].state == Disconnected
      && moments[i - 1].world == moments[i].world
  }

  /** Only the first moment is a Connecting, in the world `w`, and there is no Disconnected. */
  ghost predicate OneConnection(moments: seq<Moment>, w: World) {
    && moments != [] && moments[0] == Moment(Connecting, w)
    && forall i :: 0 < i < |moments| ==> moments[i].state != Connecting && moments[i].state != Disconnected
  }

  lemma {:induction false} DwellKeepsConnection(c: Config, w: World, polls: bool, rounds: seq<Round>, cancelled: bool)
    ensures forall m :: m in Dwell(c, w, polls, rounds, cancelled).moments ==> m.state == Syncing || m.state == Idle
    decreases |rounds|
  {
    if rounds != [] {
      var turn := Turn(c, w, polls, rounds[0], cancelled);
      if turn.end.Running? {
        DwellKeepsConnection(c, turn.world, polls, rounds[1..], turn.cancelled);
      }
    }
  }

  lemma CycleConnectsOnce(c: Config, w: World, cycle: Cycle, rule: Roles.Rule)
    ensures OneConnection(LiveCycle(c, w, cycle, rule).moments, w)
  {
    if ListOk(cycle) {
      var start := FirstSweep(c, w, cycle, rule);
      var settled := Settle(Sweep(c, start, cycle.calls), Opening(w, cycle), !cycle.polls);
      DwellKeepsConnection(c, settled.world, cycle.polls, cycle.rounds, false);
    }
  }

  lemma ResumesJoin(first: seq<Moment>, rest: seq<Moment>, w: World, gone: World)
    requires OneConnection(first, w) && Resumes(rest)
    requires rest != [] ==> rest[0] == Moment(Connecting, gone)
    ensures Resumes(first + [Moment(Disconnected, gone)] + rest)
  {
    var all := first + [Moment(Disconnected, gone)] + rest;
    forall i | 0 < i < |all| && all[i].state == Connecting
      ensures all[i - 1].state == Disconnected && all[i - 1].world == all[i].world
    {
      assert i > |first|;
      var j := i - |first| - 1;
      assert all[i] == rest[j] && (j > 0 ==> all[i - 1] == rest[j - 1]);
    }
  }

  lemma ResumesAlone(moments: seq<Moment>, w: World)
    requires OneConnection(moments, w)
    ensures Resumes(moments) && forall m :: Resumes(moments + [Moment(Disconnected, m)])
  {
  }

  /** Attempts that each connect once, and end well only when cancelled. */
  lemma {:induction false} RunsResume(run: (World, Attempt) -> Live, w: World, attempts: seq<Attempt>, cancelled: bool)
    requires forall v, a ::
               OneConnection(run(v, a).moments, v) && (run(v, a).end.EndedOk? ==> run(v, a).cancelled)
    ensures var life := LifeWith(run, w, attempts, cancelled);
            Resumes(life) && (life != [] ==> life[0] == Moment(Connecting, w))
    decreases |attempts|
  {
    if attempts != [] && !cancelled && !attempts[0].cancelFirst {
      var live := run(w, attempts[0]);
      assert OneConnection(live.moments, w);
      ResumesAlone(live.moments, w);
      if GoesOn(live, attempts[0]) {
        var gone := Dropped(live.world);
        RunsResume(run, gone, attempts[1..], live.cancelled);
        var rest := LifeWith(run, gone, attempts[1..], live.cancelled);
        if live.end.EndedErr? {
          ResumesJoin(live.moments, rest, w, gone);
        } else {
          assert live.moments + [] + [] == live.moments;
        }
      }
    }
  }

  /** Nothing stored is lost between connections: each starts with the world the last one left. */
  lemma LifeResumes(c: Config, w: World, attempts: seq<Attempt>, rule: Roles.Rule, cancelled: bool)
    ensures var life := Life(c, w, attempts, rule, cancelled);
            Resumes(life) && (life != [] ==> life[0] == Moment(Connecting, w))
  {
    var run := Runner(c, rule);
    forall v, a
      ensures OneConnection(run(v, a).moments, v) && (run(v, a).end.EndedOk? ==> run(v, a).cancelled)
    {
      CycleConnectsOnce(c, v, a.cycle, rule);
      CycleMatches(c, v, a.cycle, rule);
      RunLoop.CycleTrace(CycleScript(c, v, a.cycle, rule), false);
    }
    RunsResume(run, w, attempts, cancelled);
  }
}
