/** The watch daemon and the boot-time undrain as one transition system. Two processes share a
    marker file, the node's swarm availability and a file lock; inside watch a goroutine runs the
    drain attempt while the main thread keeps probing. A label carries every choice the
    environment makes, so a run is a list of labels. */
module Protocol {
  import opened Text
  import opened StatusText
  import opened UpsMachine
  import opened UpsRuns

  datatype Availability = Active | Drained
  datatype Thread = Main | Attempt | Boot
  datatype Kind = DrainAttempt | UrgentDrain | Recovery

  /** Where a thread stands in a section that takes the lock. */
  datatype Pc =
    | Idle
    | Locking(kind: Kind)
    | Deciding(kind: Kind)
    | Inspecting
    | Writing(kind: Kind)
    | Starting(kind: Kind)
    | Draining(kind: Kind, landed: bool)
    | Probing
    | Activating(status: string, landed: bool)
    | Removing(status: string)
    | Leaving(kind: Kind, ok: bool)
    | Left(kind: Kind, ok: bool)

  /** Where the main thread of watch stands outside those sections. Open, Select and Join are
      monitoredDrain; Pause and Polled are the rest of runDrain. */
  datatype Mode =
    | Watch
    | Open
    | Select
    | Join(action: Action)
    | Pause(drained: bool)
    | Polled(drained: bool)
    | Recover(again: bool)
    | Urgent
    | Off

  datatype BootMode = BootStart | BootRecover | BootExited

  /** What the threads share: swarm availability, the marker file and the lock file. */
  datatype Node = Node(avail: Availability, marker: bool, lock: Option<Thread>)

  datatype State = State(
    node: Node, main: Pc, attempt: Pc, boot: Pc,
    mode: Mode, bootMode: BootMode,
    cfg: Policy, history: History, cancelled: bool, suppressPoweroff: bool)

  datatype Conclusion = Again | Converged | Deadline

  datatype Label =
    | Acquire(t: Thread)
    | AcquireFails(t: Thread)
    | GiveUp(t: Thread)
    | Proceed(t: Thread)
    | Inspect(t: Thread, reportsDrain: bool)
    | WriteMarker(t: Thread, present: bool)
    | StartCommand(t: Thread)
    | RefuseCommand(t: Thread)
    | Land(t: Thread)
    | Return(t: Thread, ok: bool)
    | FreshProbe(t: Thread, ok: bool, status: string)
    | RemoveMarker(t: Thread, ok: bool)
    | Unlock(t: Thread)
    | TopProbe(p: Probe)
    | OpenProbe(p: Probe)
    | Tick(p: Probe)
    | Receive
    | PollProbe(p: Probe)
    | Conclude(why: Conclusion)
    | SectionDone
    | BootStat
    | BootDone
    | CrashWatch
    | CrashBoot

  function PcOf(s: State, t: Thread): Pc {
    match t
    case Main => s.main
    case Attempt => s.attempt
    case Boot => s.boot
  }

  function At(s: State, t: Thread, pc: Pc): State {
    match t
    case Main => s.(main := pc)
    case Attempt => s.(attempt := pc)
    case Boot => s.(boot := pc)
  }

  /** The node and a thread's place after one step of that thread. */
  datatype Move = Move(node: Node, pc: Pc)

  /** The steps inside a section. `cancelled` tells whether the thread's context is cancelled. */
  function SectionStep(n: Node, pc: Pc, cancelled: bool, l: Label): Option<Move> {
    match (pc, l)
    case (Locking(k), Acquire(t)) =>
      if n.lock.None? then Some(Move(n.(lock := Some(t)), Deciding(k))) else None
    case (Locking(k), AcquireFails(_)) => Some(Move(n, Left(k, false)))
    case (Deciding(k), GiveUp(_)) => if k == Recovery then None else Some(Move(n, Leaving(k, false)))
    case (Writing(k), GiveUp(_)) => Some(Move(n, Leaving(k, false)))
    case (Deciding(k), Proceed(_)) =>
      (match k
       case DrainAttempt => if cancelled then None else Some(Move(n, Writing(k)))
       case UrgentDrain => Some(Move(n, if n.marker then Inspecting else Writing(k)))
       case Recovery => Some(Move(n, if n.marker then Probing else Leaving(k, true))))
    case (Inspecting, Inspect(_, reportsDrain)) =>
      if reportsDrain && n.avail != Drained then None
      else Some(Move(n, if reportsDrain then Leaving(UrgentDrain, true) else Writing(UrgentDrain)))
    case (Writing(k), WriteMarker(_, present)) =>
      if n.marker && !present then None else Some(Move(n.(marker := present), Starting(k)))
    case (Starting(k), StartCommand(_)) =>
      if cancelled then None else Some(Move(n, Draining(k, false)))
    case (Starting(k), RefuseCommand(_)) => Some(Move(n, Leaving(k, false)))
    case (Draining(k, landed), Land(_)) =>
      if landed then None else Some(Move(n.(avail := Drained), Draining(k, true)))
    case (Draining(k, landed), Return(_, ok)) =>
      if ok && !landed then None else Some(Move(n, Leaving(k, ok)))
    case (Probing, FreshProbe(_, ok, status)) =>
      Some(Move(n, if ok && SafeForUndrain(status) then Activating(status, false) else Leaving(Recovery, false)))
    case (Activating(status, landed), Land(_)) =>
      if landed then None else Some(Move(n.(avail := Active), Activating(status, true)))
    case (Activating(status, landed), Return(_, ok)) =>
      if ok && !landed then None else Some(Move(n, if ok then Removing(status) else Leaving(Recovery, false)))
    case (Removing(_), RemoveMarker(_, ok)) =>
      Some(Move(if ok then n.(marker := false) else n, Leaving(Recovery, ok)))
    case (Leaving(k, ok), Unlock(_)) => Some(Move(n.(lock := None), Left(k, ok)))
    case _ => None
  }

  function ThreadStep(s: State, t: Thread, l: Label): Option<State> {
    match SectionStep(s.node, PcOf(s, t), t == Attempt && s.cancelled, l)
    case None => None
    case Some(m) => Some(At(s, t, m.pc).(node := m.node))
  }

  function BeginRecovery(s: State, again: bool): State {
    s.(mode := Recover(again), main := Locking(Recovery))
  }

  /** What runDrain does with a decision that stops it. */
  function AfterStop(s: State, a: Action): State {
    if a == Undrain then BeginRecovery(s, true) else s.(mode := Off)
  }

  /** The main thread of watch after a probe on which the machine decided a. */
  function OnDecision(s: State, l: Label, a: Action): Option<State> {
    match (s.mode, l)
    case (Watch, TopProbe(_)) =>
      Some(if a == Drain then s.(mode := Open)
           else if a == Shutdown then
             (if s.cfg.role == Peer then s.(mode := Urgent, main := Locking(UrgentDrain)) else s.(mode := Off))
           else BeginRecovery(s, false))
    case (Open, OpenProbe(_)) =>
      Some(if Stops(a) then AfterStop(s, a)
           else s.(mode := Select, attempt := Locking(DrainAttempt), cancelled := false))
    case (Select, Tick(_)) => Some(if Stops(a) then s.(mode := Join(a), cancelled := true) else s)
    case (Pause(d), PollProbe(_)) => Some(if Stops(a) then AfterStop(s, a) else s.(mode := Polled(d)))
    case _ => None
  }

  ghost function ProbeStep(s: State, l: Label, p: Probe): Option<State> {
    OnDecision(s.(history := s.history + [p]), l, ActionAfter(s.cfg, s.history, p))
  }

  /** The other steps of watch's main thread outside the sections. */
  function WatchStep(s: State, l: Label): Option<State> {
    match (s.mode, l)
    case (Select, Receive) =>
      if s.attempt.Left? then Some(s.(mode := Pause(s.attempt.ok), attempt := Idle)) else None
    case (Join(a), Receive) =>
      if s.attempt.Left? then Some(AfterStop(s.(attempt := Idle), a)) else None
    case (Polled(d), Conclude(why)) =>
      if why == Again then Some(s.(mode := if d then Pause(d) else Open))
      else if why == Converged && !d then None
      else Some(if s.suppressPoweroff then BeginRecovery(s, true) else s.(mode := Off))
    case (Recover(again), SectionDone) =>
      if !s.main.Left? then None
      else Some(if again then BeginRecovery(s, false) else s.(mode := Watch, main := Idle))
    case (Urgent, SectionDone) =>
      if s.main.Left? then Some(s.(mode := Off, main := Idle)) else None
    case _ => None
  }

  function BootStep(s: State, l: Label): Option<State> {
    match (s.bootMode, l)
    case (BootStart, BootStat) =>
      Some(if s.node.marker then s.(bootMode := BootRecover, boot := Locking(Recovery)) else s.(bootMode := BootExited))
    case (BootRecover, BootDone) =>
      if !s.boot.Left? then None
      else Some(if s.boot.ok then s.(bootMode := BootExited, boot := Idle) else s.(boot := Locking(Recovery)))
    case _ => None
  }

  function Release(n: Node, owners: set<Thread>): Node {
    if n.lock.Some? && n.lock.value in owners then n.(lock := None) else n
  }

  /** A crash loses everything a process holds in memory, and the kernel drops its lock. */
  function Crash(s: State, l: Label): State
    requires l.CrashWatch? || l.CrashBoot?
  {
    if l.CrashWatch? then
      s.(node := Release(s.node, {Main, Attempt}), main := Idle, attempt := Idle, mode := Watch,
         history := [], cancelled := false)
    else
      s.(node := Release(s.node, {Boot}), boot := Idle, bootMode := BootStart)
  }

  ghost function Step(s: State, l: Label): Option<State> {
    match l
    case CrashWatch => Some(Crash(s, l))
    case CrashBoot => Some(Crash(s, l))
    case TopProbe(p) => ProbeStep(s, l, p)
    case OpenProbe(p) => ProbeStep(s, l, p)
    case Tick(p) => ProbeStep(s, l, p)
    case Receive => WatchStep(s, l)
    case PollProbe(p) => ProbeStep(s, l, p)
    case Conclude(_) => WatchStep(s, l)
    case SectionDone => WatchStep(s, l)
    case BootStat => BootStep(s, l)
    case BootDone => BootStep(s, l)
    case _ => ThreadStep(s, l.t, l)
  }

  /** The state after a run, if every step of it is possible. */
  ghost function Exec(s: State, ls: seq<Label>): Option<State> {
    if ls == [] then
      Some(s)
    else
      match Exec(s, ls[..|ls| - 1])
      case None => None
      case Some(q) => Step(q, ls[|ls| - 1])
  }

  /** An active, unmarked node on which both processes have just started. */
  predicate Init(s: State) {
    && s.node == Node(Active, false, None)
    && s.main == Idle && s.attempt == Idle && s.boot == Idle
    && s.mode == Watch && s.bootMode == BootStart
    && s.history == [] && !s.cancelled
  }

  /** Every marker write left the marker in place. */
  predicate MarkersWritten(ls: seq<Label>) {
    forall l :: l in ls ==> l.WriteMarker? ==> l.present
  }
}
