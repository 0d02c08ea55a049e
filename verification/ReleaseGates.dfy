/**
 * The release gate protocol: the gate runner overwrites one record, the deploy script reads it
 * together with the clock, and a rollback touches neither.
 */
module ReleaseGates {
  import opened Common

  const MAX_AGE: int := 24 * 3600
  const UNKNOWN_MODE_EXIT: int := 2

  datatype Gate = Smoke | MigrationSmoke | PerfSmoke | SecuritySmoke
  datatype Mode = Only(gate: Gate) | All | Unknown
  datatype Target = Test | Staging | Preprod | Prod

  const GATES: seq<Gate> := [Smoke, MigrationSmoke, PerfSmoke, SecuritySmoke]

  /** The exit code each gate's commands would end with in one run. */
  datatype Codes = Codes(smoke: int, migration: int, perf: int, security: int) {
    function Of(g: Gate): int {
      match g
      case Smoke => smoke
      case MigrationSmoke => migration
      case PerfSmoke => perf
      case SecuritySmoke => security
    }
  }

  datatype StepResult = StepResult(gate: Gate, exitCode: int, passed: bool)
  datatype RecordStatus = Passed | Failed | OtherStatus
  datatype Stamp = NoStamp | Malformed | At(time: int)

  datatype GateRecord = GateRecord(
    mode: Mode,
    status: RecordStatus,
    exitCode: int,
    steps: seq<StepResult>,
    checkedAt: Stamp)

  /** The shared file as the deploy script finds it; `EmptyObject` is the falsy record `{}`. */
  datatype GateFile = Missing | Unreadable | EmptyObject | Record(record: GateRecord)

  datatype Reason = RecordMissing | NotPassed | ModeMismatch | RecordStale
  datatype ReleaseStatus = Deployed(requiredGates: seq<Gate>) | Blocked(reason: Reason) | RolledBack
  datatype Release = Release(target: Target, status: ReleaseStatus, at: int)

  datatype World = World(now: int, gate: GateFile, release: Option<Release>)

  datatype Event =
    | RunGates(args: Option<Mode>, codes: Codes)
    | Interrupted(mode: Mode)
    | Deploy(target: Target, skip: bool)
    | Rollback(target: Target)
    | Tick(seconds: nat)

  // ----- the gate runner

  function ResultOf(g: Gate, codes: Codes): StepResult {
    StepResult(g, codes.Of(g), codes.Of(g) == 0)
  }

  /** From gate i on, stopping after the first that fails. */
  function StepsFrom(i: nat, codes: Codes): (steps: seq<StepResult>)
    requires i <= |GATES|
    ensures |steps| <= |GATES| - i
    decreases |GATES| - i
  {
    if i == |GATES| then []
    else if codes.Of(GATES[i]) != 0 then [ResultOf(GATES[i], codes)]
    else [ResultOf(GATES[i], codes)] + StepsFrom(i + 1, codes)
  }

  function CodeFrom(i: nat, codes: Codes): int
    requires i <= |GATES|
    decreases |GATES| - i
  {
    if i == |GATES| then 0
    else if codes.Of(GATES[i]) != 0 then codes.Of(GATES[i])
    else CodeFrom(i + 1, codes)
  }

  function ModeRun(mode: Mode, codes: Codes): (int, seq<StepResult>) {
    match mode
    case Only(g) => (codes.Of(g), [ResultOf(g, codes)])
    case All => (CodeFrom(0, codes), StepsFrom(0, codes))
    case Unknown => (UNKNOWN_MODE_EXIT, [])
  }

  function RecordOf(mode: Mode, codes: Codes, now: int): GateRecord {
    var (code, steps) := ModeRun(mode, codes);
    GateRecord(mode, if code == 0 then Passed else Failed, code, steps, At(now))
  }

  // ----- the deploy decision

  function RequiredMode(target: Target): Mode {
    if target == Preprod || target == Prod then All else Only(Smoke)
  }

  predicate ModeSuffices(mode: Mode, target: Target) {
    mode == RequiredMode(target) || mode == All
  }

  predicate IsFresh(record: GateRecord, now: int) {
    record.checkedAt.At? && now - record.checkedAt.time <= MAX_AGE
  }

  predicate GateOk(file: GateFile, target: Target, now: int) {
    file.Record? && file.record.status == Passed && ModeSuffices(file.record.mode, target) && IsFresh(file.record, now)
  }

  /** Asked only about blocked deploys, but total: its last line repeats an earlier reason. */
  function BlockingReason(file: GateFile, target: Target, now: int): Reason {
    match file
    case Missing => RecordMissing
    case Unreadable => RecordMissing
    case EmptyObject => NotPassed
    case Record(record) =>
      if record.status != Passed then NotPassed
      else if !ModeSuffices(record.mode, target) then ModeMismatch
      else if !IsFresh(record, now) then RecordStale
      else NotPassed
  }

  function RequiredGates(target: Target): seq<Gate> {
    if target == Test || target == Staging then [Smoke, MigrationSmoke] else GATES
  }

  predicate Admits(w: World, target: Target, skip: bool) {
    skip || GateOk(w.gate, target, w.now)
  }

  function ReleaseOf(w: World, target: Target, skip: bool): Release {
    Release(target,
      if Admits(w, target, skip) then Deployed(RequiredGates(target))
      else Blocked(BlockingReason(w.gate, target, w.now)),
      w.now)
  }

  // ----- the protocol as a transition system

  /** A run that gets as far as writing the record. */
  predicate Writes(e: Event) {
    e.RunGates? && e.args.Some? && !e.args.value.Unknown?
  }

  function Step(w: World, e: Event): World {
    match e
    case RunGates(args, codes) => if Writes(e) then w.(gate := Record(RecordOf(args.value, codes, w.now))) else w
    case Interrupted(_) => w
    case Deploy(target, skip) => w.(release := Some(ReleaseOf(w, target, skip)))
    case Rollback(target) => w.(release := Some(Release(target, RolledBack, w.now)))
    case Tick(seconds) => w.(now := w.now + seconds)
  }

  function Run(w: World, events: seq<Event>): World {
    if events == [] then w else Step(Run(w, events[..|events| - 1]), events[|events| - 1])
  }

  // ----- the programs

  class Artifacts {
    var gate: GateFile
    var release: Option<Release>

    constructor ()
      ensures gate == Missing && release == None
    {
      gate, release := Missing, None;
    }

    ghost function View(now: int): World
      reads this
    {
      World(now, gate, release)
    }

    /** Runs one gate, or all four in order with an early exit. */
    static method RunMode(mode: Mode, codes: Codes) returns (code: int, steps: seq<StepResult>)
      ensures (code, steps) == ModeRun(mode, codes)
    {
      if mode.Only? {
        code := codes.Of(mode.gate);
        return code, [StepResult(mode.gate, code, code == 0)];
      }
      if mode != All {
        return UNKNOWN_MODE_EXIT, [];
      }
      ghost var allSteps, allCode := StepsFrom(0, codes), CodeFrom(0, codes);
      steps := [];
      hide StepsFrom, CodeFrom, ResultOf;
      for i := 0 to |GATES|
        invariant steps + StepsFrom(i, codes) == allSteps && CodeFrom(i, codes) == allCode
      {
        code := codes.Of(GATES[i]);
        NextGate(i, codes);
        Regroup(steps, ResultOf(GATES[i], codes), StepsFrom(i + 1, codes));
        steps := steps + [StepResult(GATES[i], code, code == 0)];
        if code != 0 {
          return;
        }
      }
      NextGate(|GATES|, codes);
      assert steps + [] == steps;
      code := 0;
    }

    static lemma NextGate(i: nat, codes: Codes)
      requires i <= |GATES|
      ensures i == |GATES| ==> StepsFrom(i, codes) == [] && CodeFrom(i, codes) == 0
      ensures i < |GATES| ==>
        ResultOf(GATES[i], codes) == StepResult(GATES[i], codes.Of(GATES[i]), codes.Of(GATES[i]) == 0)
      ensures i < |GATES| && codes.Of(GATES[i]) == 0 ==>
        (StepsFrom(i, codes) == [ResultOf(GATES[i], codes)] + StepsFrom(i + 1, codes)
        && CodeFrom(i, codes) == CodeFrom(i + 1, codes))
      ensures i < |GATES| && codes.Of(GATES[i]) != 0 ==>
        (StepsFrom(i, codes) == [ResultOf(GATES[i], codes)] && CodeFrom(i, codes) == codes.Of(GATES[i]))
    {
    }

    static lemma Regroup(done: seq<StepResult>, next: StepResult, rest: seq<StepResult>)
      ensures done + ([next] + rest) == (done + [next]) + rest
    {
    }

    method RunQualityGates(args: Option<Mode>, codes: Codes, now: int) returns (exit: int)
      modifies this`gate
      ensures View(now) == Step(old(View(now)), RunGates(args, codes))
      ensures exit == if args.None? || args.value.Unknown? then UNKNOWN_MODE_EXIT else ModeRun(args.value, codes).0
    {
      if args.None? || args.value.Unknown? {
        return UNKNOWN_MODE_EXIT;
      }
      var code, steps := RunMode(args.value, codes);
      gate := Record(GateRecord(args.value, if code == 0 then Passed else Failed, code, steps, At(now)));
      exit := code;
    }

    method DeployMain(target: Target, skip: bool, now: int) returns (exit: int)
      modifies this`release
      ensures View(now) == Step(old(View(now)), Deploy(target, skip))
      ensures exit == if Admits(old(View(now)), target, skip) then 0 else 1
    {
      if !skip && !GateOk(gate, target, now) {
        release := Some(Release(target, Blocked(BlockingReason(gate, target, now)), now));
        return 1;
      }
      release := Some(Release(target, Deployed(RequiredGates(target)), now));
      exit := 0;
    }

    method RollbackMain(target: Target, now: int) returns (exit: int)
      modifies this`release
      ensures View(now) == Step(old(View(now)), Rollback(target)) && exit == 0
    {
      release := Some(Release(target, RolledBack, now));
      exit := 0;
    }
  }

  // ----- one gate run

  ghost predicate AllPassed(mode: Mode, codes: Codes) {
    match mode
    case Only(g) => codes.Of(g) == 0
    case All => forall g :: codes.Of(g) == 0
    case Unknown => false
  }

  lemma {:induction false} FromGate(i: nat, codes: Codes)
    requires i <= |GATES|
    ensures CodeFrom(i, codes) == 0 <==> forall k :: i <= k < |GATES| ==> codes.Of(GATES[k]) == 0
    ensures forall k :: 0 <= k < |StepsFrom(i, codes)| ==> StepsFrom(i, codes)[k] == ResultOf(GATES[i + k], codes)
    ensures forall k :: 0 <= k < |StepsFrom(i, codes)| - 1 ==> StepsFrom(i, codes)[k].passed
    ensures CodeFrom(i, codes) == 0 ==> |StepsFrom(i, codes)| == |GATES| - i
    ensures CodeFrom(i, codes) != 0 ==>
      (var steps := StepsFrom(i, codes);
      steps != [] && steps[|steps| - 1].exitCode == CodeFrom(i, codes) && !steps[|steps| - 1].passed)
    decreases |GATES| - i
  {
    if i < |GATES| {
      FromGate(i + 1, codes);
    }
  }

  /** A record says "passed" iff every gate of its mode passed; its steps are the gates up to the first failure. */
  lemma RecordTellsTheRun(mode: Mode, codes: Codes, now: int)
    requires mode != Unknown
    ensures var r := RecordOf(mode, codes, now);
      && (r.status == Passed <==> AllPassed(mode, codes))
      && (r.status == Passed <==> forall k :: 0 <= k < |r.steps| ==> r.steps[k].passed)
      && (r.status == Passed && mode == All ==>
            |r.steps| == |GATES| && forall k :: 0 <= k < |GATES| ==> r.steps[k] == StepResult(GATES[k], 0, true))
      && (r.status == Failed ==> r.steps != [] && r.steps[|r.steps| - 1].exitCode == r.exitCode != 0)
      && (r.status == Failed ==> forall k :: 0 <= k < |r.steps| - 1 ==> r.steps[k].passed)
  {
    FromGate(0, codes);
    var r := RecordOf(mode, codes, now);
    if r.status == Failed {
      assert !r.steps[|r.steps| - 1].passed;
    }
    if mode == All && CodeFrom(0, codes) == 0 {
      forall g: Gate
        ensures codes.Of(g) == 0
      {
        var k := match g case Smoke => 0 case MigrationSmoke => 1 case PerfSmoke => 2 case SecuritySmoke => 3;
        assert GATES[k] == g;
      }
    }
  }

  // ----- every run of the protocol

  /** Index of the most recent completed gate run, or -1. */
  function LastWrite(events: seq<Event>): int {
    if events == [] then -1
    else if Writes(events[|events| - 1]) then |events| - 1
    else LastWrite(events[..|events| - 1])
  }

  lemma {:induction false} LastWriteIsLast(events: seq<Event>)
    ensures -1 <= LastWrite(events) < |events|
    ensures LastWrite(events) >= 0 ==> Writes(events[LastWrite(events)])
    ensures forall k :: LastWrite(events) < k < |events| ==> !Writes(events[k])
  {
    if events != [] {
      LastWriteIsLast(events[..|events| - 1]);
    }
  }

  /** The record in the file is the one of the most recent completed gate run, stamped with its time. */
  lemma {:induction false} FileIsLastWrite(w: World, events: seq<Event>)
    requires w.gate == Missing
    ensures var j := LastWrite(events);
      && -1 <= j < |events|
      && (j >= 0 ==> Writes(events[j]))
      && Run(w, events).gate ==
        if j < 0 then Missing else Record(RecordOf(events[j].args.value, events[j].codes, Run(w, events[..j]).now))
  {
    if events != [] {
      var before := events[..|events| - 1];
      FileIsLastWrite(w, before);
      LastWriteIsLast(events);
      var j := LastWrite(before);
      if j >= 0 {
        assert before[..j] == events[..j];
      }
    }
  }

  lemma {:induction false} ClockNeverGoesBack(w: World, events: seq<Event>, j: nat)
    requires j <= |events|
    ensures Run(w, events[..j]).now <= Run(w, events).now
    decreases |events|
  {
    if j < |events| {
      var n := |events| - 1;
      ClockNeverGoesBack(w, events[..n], j);
      assert events[..n][..j] == events[..j];
    } else {
      assert events[..j] == events;
    }
  }

  /** The most recent completed gate run was wide enough, passed throughout, and is at most a day old. */
  ghost predicate Earned(w: World, events: seq<Event>, target: Target, j: int) {
    && 0 <= j < |events| && Writes(events[j])
    && (forall k :: j < k < |events| ==> !Writes(events[k]))
    && ModeSuffices(events[j].args.value, target)
    && AllPassed(events[j].args.value, events[j].codes)
    && Run(w, events).now - Run(w, events[..j]).now <= MAX_AGE
  }

  /** A checked deploy goes through iff it was earned, in every run of gate, deploy, rollback and clock steps. */
  lemma DeployIsEarned(w: World, events: seq<Event>, target: Target)
    requires w.gate == Missing
    ensures Step(Run(w, events), Deploy(target, false)).release.value.status.Deployed?
      <==> exists j :: Earned(w, events, target, j)
  {
    FileIsLastWrite(w, events);
    LastWriteIsLast(events);
    var j := LastWrite(events);
    if j >= 0 {
      RecordTellsTheRun(events[j].args.value, events[j].codes, Run(w, events[..j]).now);
      if GateOk(Run(w, events).gate, target, Run(w, events).now) {
        assert Earned(w, events, target, j);
      }
    }
    forall k | Earned(w, events, target, k)
      ensures k == j
    {
    }
  }

  /** For preprod and prod that means: all four gates, in order, each with exit code 0. */
  lemma ProductionNeedsAllFour(w: World, events: seq<Event>, target: Target)
    requires w.gate == Missing && (target == Preprod || target == Prod)
    requires GateOk(Run(w, events).gate, target, Run(w, events).now)
    ensures var r := Run(w, events).gate.record;
      r.mode == All && |r.steps| == 4 && forall k :: 0 <= k < 4 ==> r.steps[k] == StepResult(GATES[k], 0, true)
  {
    FileIsLastWrite(w, events);
    var j := LastWrite(events);
    RecordTellsTheRun(events[j].args.value, events[j].codes, Run(w, events[..j]).now);
  }

  /** A later completed run that fails, or is too narrow for the target, revokes the permission. */
  lemma LaterRunDecides(w: World, mode: Mode, codes: Codes, target: Target)
    requires mode != Unknown
    ensures GateOk(Step(w, RunGates(Some(mode), codes)).gate, target, w.now)
      <==> AllPassed(mode, codes) && ModeSuffices(mode, target)
  {
    RecordTellsTheRun(mode, codes, w.now);
  }

  lemma {:induction false} WithoutGateRuns(w: World, events: seq<Event>)
    requires forall k :: 0 <= k < |events| ==> !Writes(events[k])
    ensures Run(w, events).gate == w.gate
  {
    if events != [] {
      WithoutGateRuns(w, events[..|events| - 1]);
    }
  }

  /** Without another gate run, deploys, rollbacks and time revoke it only by its age: after a day and not before. */
  lemma PermissionExpires(w: World, events: seq<Event>, target: Target)
    requires GateOk(w.gate, target, w.now) && forall k :: 0 <= k < |events| ==> !Writes(events[k])
    ensures GateOk(Run(w, events).gate, target, Run(w, events).now)
      <==> Run(w, events).now <= w.gate.record.checkedAt.time + MAX_AGE
  {
    WithoutGateRuns(w, events);
  }

  /** Whatever the file holds, a blocked deploy records the first check that failed. */
  lemma BlockedForTheStatedReason(w: World, target: Target)
    requires !Admits(w, target, false)
    ensures match BlockingReason(w.gate, target, w.now)
      case RecordMissing => w.gate == Missing || w.gate == Unreadable
      case NotPassed => w.gate == EmptyObject || (w.gate.Record? && w.gate.record.status != Passed)
      case ModeMismatch => w.gate.Record? && w.gate.record.status == Passed && !ModeSuffices(w.gate.record.mode, target)
      case RecordStale =>
        && w.gate.Record? && w.gate.record.status == Passed
        && ModeSuffices(w.gate.record.mode, target) && !IsFresh(w.gate.record, w.now)
  {
  }

  /** In every run the recorded reason tells what the most recent completed gate run was lacking. */
  lemma BlockedReasonTellsTheRun(w: World, events: seq<Event>, target: Target)
    requires w.gate == Missing && !Admits(Run(w, events), target, false)
    ensures var j := LastWrite(events);
      && -1 <= j < |events|
      && (j >= 0 ==> Writes(events[j]))
      && match BlockingReason(Run(w, events).gate, target, Run(w, events).now)
        case RecordMissing => j == -1
        case NotPassed => j >= 0 && !AllPassed(events[j].args.value, events[j].codes)
        case ModeMismatch =>
          && j >= 0 && AllPassed(events[j].args.value, events[j].codes)
          && !ModeSuffices(events[j].args.value, target)
        case RecordStale =>
          && j >= 0 && AllPassed(events[j].args.value, events[j].codes)
          && ModeSuffices(events[j].args.value, target)
          && Run(w, events).now - Run(w, events[..j]).now > MAX_AGE
  {
    FileIsLastWrite(w, events);
    var j := LastWrite(events);
    BlockedForTheStatedReason(Run(w, events), target);
    if j >= 0 {
      RecordTellsTheRun(events[j].args.value, events[j].codes, Run(w, events[..j]).now);
    }
  }

  /** The gates a deployment lists as required all passed in the admitting run iff that run was a full one. */
  lemma RequiredGatesHonouredIff(w: World, events: seq<Event>, target: Target)
    requires w.gate == Missing && GateOk(Run(w, events).gate, target, Run(w, events).now)
    ensures var r := Run(w, events).gate.record;
      (forall g :: g in RequiredGates(target) ==> StepResult(g, 0, true) in r.steps) <==> r.mode == All
  {
    FileIsLastWrite(w, events);
    var j := LastWrite(events);
    var mode, codes := events[j].args.value, events[j].codes;
    RecordTellsTheRun(mode, codes, Run(w, events[..j]).now);
    var r := Run(w, events).gate.record;
    if mode == All {
      forall g: Gate
        ensures StepResult(g, 0, true) in r.steps
      {
        var k := match g case Smoke => 0 case MigrationSmoke => 1 case PerfSmoke => 2 case SecuritySmoke => 3;
        assert r.steps[k] == StepResult(g, 0, true);
      }
    } else {
      assert MigrationSmoke in RequiredGates(target);
    }
  }

  // ----- records and releases, from exit codes and times

  /** A full run: smoke, migration, performance, security, in that order, up to the first exit code that is not zero. */
  lemma FullRecordFromTheCodes(codes: Codes, now: int)
    ensures var r := RecordOf(All, codes, now);
      && r.mode == All && r.checkedAt == At(now)
      && (r.status == Passed <==> codes.smoke == codes.migration == codes.perf == codes.security == 0)
      && (r.status == Failed <==> r.status != Passed)
      && r.exitCode == (if codes.smoke != 0 then codes.smoke else if codes.migration != 0 then codes.migration
        else if codes.perf != 0 then codes.perf else codes.security)
    ensures codes.smoke != 0 ==>
      RecordOf(All, codes, now).steps == [StepResult(Smoke, codes.smoke, false)]
    ensures codes.smoke == 0 && codes.migration != 0 ==>
      RecordOf(All, codes, now).steps
        == [StepResult(Smoke, 0, true), StepResult(MigrationSmoke, codes.migration, false)]
    ensures codes.smoke == codes.migration == 0 && codes.perf != 0 ==>
      RecordOf(All, codes, now).steps
        == [StepResult(Smoke, 0, true), StepResult(MigrationSmoke, 0, true), StepResult(PerfSmoke, codes.perf, false)]
    ensures codes.smoke == codes.migration == codes.perf == 0 ==>
      RecordOf(All, codes, now).steps
        == [StepResult(Smoke, 0, true), StepResult(MigrationSmoke, 0, true), StepResult(PerfSmoke, 0, true),
          StepResult(SecuritySmoke, codes.security, codes.security == 0)]
  {
    CodesByGate(codes);
    GatesInOrder();
    Artifacts.NextGate(0, codes);
    Artifacts.NextGate(1, codes);
    Artifacts.NextGate(2, codes);
    Artifacts.NextGate(3, codes);
    Artifacts.NextGate(4, codes);
  }

  lemma GatesInOrder()
    ensures |GATES| == 4
    ensures GATES[0] == Smoke && GATES[1] == MigrationSmoke && GATES[2] == PerfSmoke && GATES[3] == SecuritySmoke
  {
  }

  lemma CodesByGate(codes: Codes)
    ensures codes.Of(Smoke) == codes.smoke && codes.Of(MigrationSmoke) == codes.migration
    ensures codes.Of(PerfSmoke) == codes.perf && codes.Of(SecuritySmoke) == codes.security
  {
  }

  /** A run of one gate records that gate alone, with its own exit code. */
  lemma SingleRecordFromTheCode(gate: Gate, codes: Codes, now: int, code: int)
    requires gate == Smoke ==> code == codes.smoke
    requires gate == MigrationSmoke ==> code == codes.migration
    requires gate == PerfSmoke ==> code == codes.perf
    requires gate == SecuritySmoke ==> code == codes.security
    ensures RecordOf(Only(gate), codes, now) == GateRecord(Only(gate), if code == 0 then Passed else Failed, code,
      [StepResult(gate, code, code == 0)], At(now))
  {
  }

  /**
   * In every run a checked deploy to test or staging goes through iff the most recent completed gate run was the smoke
   * gate or a full run, passed, and is at most 86400 seconds old; to preprod or prod, iff it was a full one.
   */
  lemma DeployFromTheRuns(w: World, events: seq<Event>, target: Target, j: int, age: int)
    requires w.gate == Missing && -1 <= j < |events|
    requires j >= 0 ==> events[j].RunGates? && events[j].args.Some? && events[j].args.value != Unknown
    requires forall k :: j < k < |events| && events[k].RunGates? ==>
      events[k].args == None || events[k].args == Some(Unknown)
    requires j >= 0 ==> age == Run(w, events).now - Run(w, events[..j]).now
    ensures var release := Step(Run(w, events), Deploy(target, false)).release;
      && release.Some? && release.value.target == target && release.value.at == Run(w, events).now
      && (release.value.status.Deployed? <==>
        && j >= 0 && age <= 86400
        && var mode, codes := events[j].args.value, events[j].codes;
          || (mode == All && codes.smoke == codes.migration == codes.perf == codes.security == 0)
          || (mode == Only(Smoke) && codes.smoke == 0 && (target == Test || target == Staging)))
  {
    FileIsLastWrite(w, events);
    LastWriteIsLast(events);
    assert LastWrite(events) == j;
    if j >= 0 {
      FullRecordFromTheCodes(events[j].codes, Run(w, events[..j]).now);
      if events[j].args.value.Only? {
        CodesByGate(events[j].codes);
      }
    }
    hide Run, LastWrite, StepsFrom, CodeFrom;
  }

  /** What a release records: the gates it lists by target, a skipped check always deploying, a rollback never. */
  lemma ReleaseFromTheTarget(w: World, target: Target, skip: bool)
    ensures var release := Step(w, Deploy(target, skip)).release;
      && release.Some? && (skip ==> release.value.status.Deployed?)
      && (release.value.status.Deployed? && (target == Test || target == Staging) ==>
        release.value.status.requiredGates == [Smoke, MigrationSmoke])
      && (release.value.status.Deployed? && (target == Preprod || target == Prod) ==>
        release.value.status.requiredGates == [Smoke, MigrationSmoke, PerfSmoke, SecuritySmoke])
      && (!release.value.status.Deployed? ==> release.value.status.Blocked?)
      && Step(w, Deploy(target, skip)).gate == w.gate && Step(w, Deploy(target, skip)).now == w.now
    ensures Step(w, Rollback(target)) == w.(release := Some(Release(target, RolledBack, w.now)))
    ensures UNKNOWN_MODE_EXIT == 2 && forall codes :: ModeRun(Unknown, codes) == (2, [])
  {
  }
}
