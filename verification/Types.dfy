/** The data model of Titan Hardware Manager v3: labels, workloads and their inputs. */
module Types {

  type Pid = int

  datatype Option<+T> = None | Some(value: T)

  /** What a parser makes of the front of a text: a value and the rest. */
  type Parsed<+T> = Option<(T, string)>

  datatype WorkloadType = AndroidDev | WebDev | SystemDev | Casual | AiTask | Service | Vm | Neutral

  datatype WorkloadState = Discovered | Active | BackgroundExecuting | Idle | Aging | Reclaimable | Terminated

  datatype ActivityState = Executing | Resting | Completed | Unknown

  datatype PressureLevel = Normal | Moderate | High | Critical {
    function Rank(): nat {
      match this case Normal => 0 case Moderate => 1 case High => 2 case Critical => 3
    }

    predicate AtLeast(other: PressureLevel) { Rank() >= other.Rank() }
  }

  datatype PolicyDecision = KeepFull | KeepBackground | Throttle | Freeze | Reclaim {
    function Severity(): nat {
      match this case KeepFull => 0 case KeepBackground => 1 case Throttle => 2 case Freeze => 3 case Reclaim => 4
    }
  }

  /** Classification labels and modifiers. None of them is written by the state machine. */
  datatype Tags = Tags(
    kind: WorkloadType,
    isProtected: bool,
    aiOwned: bool,
    latencySensitive: bool,
    observed: bool,
    isBrowserRoot: bool,
    isReclassifiable: bool)

  /** The part of a workload that the state machine writes. */
  datatype Phase = Phase(state: WorkloadState, hysteresis: int)

  datatype Workload = Workload(
    id: nat,
    rootPid: Pid,
    pids: seq<Pid>,
    workspaceId: int,
    rootCmdline: string,
    lastActive: nat,
    tags: Tags,
    phase: Phase)

  /** Decay thresholds in minutes, and the length of the hysteresis window in ticks. */
  datatype DecayConfig = DecayConfig(ageSoft: int, ageHard: int, hysteresisTicks: int)

  const DEFAULT_DECAY := DecayConfig(5, 15, 10)

  /** What one policy tick sees of one workload: now and lastActive are readings of the millisecond clock; guarded tells
      whether the protected registry claims any member pid. */
  datatype TickInput = TickInput(
    tags: Tags,
    guarded: bool,
    isFocused: bool,
    isVisible: bool,
    activity: ActivityState,
    pressure: PressureLevel,
    now: nat,
    lastActive: nat)
  {
    function Age(): int { MinutesSince(now, lastActive) }

    predicate Shown() { isFocused || isVisible }

    predicate Managed() { !tags.isProtected && !tags.observed }
  }

  /** Whole minutes between two readings of a monotone millisecond clock. */
  function MinutesSince(now: nat, earlier: nat): int {
    if earlier <= now then (now - earlier) / 60000 else -((earlier - now) / 60000)
  }

  /** Being at least so many minutes old, told in milliseconds. */
  lemma AgeInMilliseconds(now: nat, earlier: nat, minutes: int)
    requires minutes > 0
    ensures MinutesSince(now, earlier) >= minutes <==> now >= earlier + 60000 * minutes
  {}
}
