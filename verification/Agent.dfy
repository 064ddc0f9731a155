/** The node agent: its status word, its launcher, and the processes the launcher has started. */
module Agents {
  import opened ClusterTypes

  /** A started process; `pid` tells apart two launches of the same job. */
  datatype Proc = Proc(pid: nat, job: JobId)

  /** `current` is the launcher's `current_process`; `live` are the started processes that have not ended. */
  datatype AgentState = AgentState(status: NodeStatus, current: Option<Proc>, live: set<Proc>, started: nat)

  const NEW_AGENT := AgentState(Idle, None, {}, 0)

  predicate Occupied(a: AgentState) { a.current.Some? && a.current.value in a.live }

  /** A launch command arrives: the status becomes TRAINING whether or not the launcher accepts. */
  function Receive(a: AgentState, j: JobId): AgentState {
    if Occupied(a) then a.(status := Training)
    else AgentState(Training, Some(Proc(a.started, j)), a.live + {Proc(a.started, j)}, a.started + 1)
  }

  /** A process ends by itself or is killed. */
  function End(a: AgentState, p: Proc): AgentState { a.(live := a.live - {p}) }

  /** What is reported about a process that has ended. */
  function ExitReport(code: int): Outcome { if code == 0 then Success else Failure }

  /** The launcher never loses sight of a live process, so there is at most one. */
  ghost predicate OneProcess(a: AgentState) {
    && (forall p :: p in a.live ==> a.current == Some(p))
    && (forall p :: p in a.live ==> p.pid < a.started)
  }

  lemma OneProcessKept(a: AgentState, j: JobId, p: Proc)
    requires OneProcess(a)
    ensures OneProcess(Receive(a, j)) && OneProcess(End(a, p))
    ensures forall q, r :: q in a.live && r in a.live ==> q == r
  {
  }

  class JobLauncher {
    var current: Option<Proc>
    var live: set<Proc>
    var started: nat

    constructor ()
      ensures current == None && live == {} && started == 0
    {
      current, live, started := None, {}, 0;
    }

    /** Refuses while the current process is alive. */
    method LaunchTorchrun(j: JobId) returns (ok: bool)
      modifies this
      ensures ok <==> !(old(current).Some? && old(current).value in old(live))
      ensures ok ==> current == Some(Proc(old(started), j)) && started == old(started) + 1
      ensures ok ==> live == old(live) + {Proc(old(started), j)}
      ensures !ok ==> current == old(current) && live == old(live) && started == old(started)
    {
      if current.Some? && current.value in live {
        return false;
      }
      current := Some(Proc(started, j));
      live := live + {Proc(started, j)};
      started := started + 1;
      return true;
    }

    /** Terminates the current process, if it is alive. */
    method StopCurrentJob() returns (ok: bool)
      modifies this`current, this`live
      ensures ok <==> old(current).Some? && old(current).value in old(live)
      ensures ok ==> current == None && live == old(live) - {old(current).value}
      ensures !ok ==> current == old(current) && live == old(live)
    {
      if current.Some? && current.value in live {
        live := live - {current.value};
        current := None;
        return true;
      }
      return false;
    }
  }

  class NodeAgent {
    var status: NodeStatus
    const launcher: JobLauncher

    ghost function State(): AgentState
      reads this, launcher
    {
      AgentState(status, launcher.current, launcher.live, launcher.started)
    }

    constructor ()
      ensures State() == NEW_AGENT && fresh(launcher)
    {
      status := Idle;
      launcher := new JobLauncher();
    }

    /** One LAUNCH_JOB command from the stream. */
    method HandleLaunch(j: JobId)
      modifies this, launcher
      ensures State() == Receive(old(State()), j)
    {
      status := Training;
      var ok := launcher.LaunchTorchrun(j);
    }

    /** The command stream breaks. */
    method Disconnected()
      modifies this
      ensures State() == old(State()).(status := Other("OFFLINE"))
    {
      status := Other("OFFLINE");
    }
  }
}
