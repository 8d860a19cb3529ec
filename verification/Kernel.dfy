// The kernel state the agent programs, and the privileged calls as atomic steps.

module Kernel {
  import opened Csid
  import opened Payload

  type Table = nat

  // The gateway port of one network of a domain: svp-<function id>-<vlan>.
  datatype Gateway = Gateway(f: nat, vlan: nat)

  // `sealed` is no kernel state: it records that the route was installed
  // towards a transit SID the edge filter did not cover, so that it is meant
  // to have no SID rule.
  datatype EncapRoute = EncapRoute(segments: seq<Address>, dev: nat, sealed: bool)

  datatype SteerRule = SteerRule(prefix: Dest, iif: Gateway, table: Table)

  datatype State = State(
    routes: map<(Table, Dest), EncapRoute>,
    // (function id of the VRF, SID it may reach through main)
    sidRules: set<(nat, Address)>,
    steerRules: set<SteerRule>)

  ghost function RoutesIn(st: State, t: Table): map<Dest, EncapRoute> {
    map k | k in st.routes && k.0 == t :: k.1 := st.routes[k]
  }

  // The privileged calls.
  datatype Command =
    | PutRoute(t: Table, d: Dest, r: EncapRoute)
    | DropRoute(t: Table, d: Dest)
    | Flush(t: Table)
    | PutSidRule(f: nat, sid: Address)
    | DropSidRule(f: nat, sid: Address)
    | PutSteerRule(rule: SteerRule)
    | DropSteerRule(rule: SteerRule)

  function Run(c: Command, st: State): State {
    match c
    case PutRoute(t, d, r) => st.(routes := st.routes[(t, d) := r])
    case DropRoute(t, d) => st.(routes := st.routes - {(t, d)})
    case Flush(t) => st.(routes := map k | k in st.routes && k.0 != t :: st.routes[k])
    case PutSidRule(f, sid) => st.(sidRules := st.sidRules + {(f, sid)})
    case DropSidRule(f, sid) => st.(sidRules := st.sidRules - {(f, sid)})
    case PutSteerRule(r) => st.(steerRules := st.steerRules + {r})
    case DropSteerRule(r) => st.(steerRules := st.steerRules - {r})
  }

  // A history: the newest state is st, and each is one privileged call after
  // the one before it.
  ghost predicate IsHistory(calls: seq<Command>, trace: seq<State>, st: State) {
    && |trace| == |calls| + 1 && trace[|calls|] == st
    && forall i | 0 <= i < |calls| :: trace[i + 1] == Run(calls[i], trace[i])
  }

  lemma HistoryStep(calls: seq<Command>, trace: seq<State>, st: State, c: Command)
    requires IsHistory(calls, trace, st)
    ensures IsHistory(calls + [c], trace + [Run(c, st)], Run(c, st))
  {
    hide Run;
  }

  // A history only grows.
  lemma StillLonger(trace0: seq<State>, trace1: seq<State>, trace2: seq<State>, trace: seq<State>)
    requires trace0 <= trace1 <= trace2 <= trace
    ensures trace0 <= trace
  {
  }

  class Kernel {
    var st: State
    // Every privileged call so far, and every state the kernel has been in,
    // newest last.
    ghost var calls: seq<Command>
    ghost var trace: seq<State>

    ghost predicate Recorded()
      reads this
    {
      IsHistory(calls, trace, st)
    }

    constructor (st: State)
      ensures Recorded() && this.st == st && trace == [st]
    {
      this.st := st;
      calls, trace := [], [st];
    }

    method ReplaceRoute(t: Table, d: Dest, r: EncapRoute)
      requires Recorded()
      modifies this
      ensures Recorded() && st == old(st).(routes := old(st).routes[(t, d) := r])
      ensures trace == old(trace) + [st]
    {
      HistoryStep(calls, trace, st, PutRoute(t, d, r));
      st := st.(routes := st.routes[(t, d) := r]);
      calls, trace := calls + [PutRoute(t, d, r)], trace + [st];
    }

    method DeleteRoute(t: Table, d: Dest)
      requires Recorded()
      modifies this
      ensures Recorded() && st == old(st).(routes := old(st).routes - {(t, d)})
      ensures trace == old(trace) + [st]
    {
      HistoryStep(calls, trace, st, DropRoute(t, d));
      st := st.(routes := st.routes - {(t, d)});
      calls, trace := calls + [DropRoute(t, d)], trace + [st];
    }

    method FlushTable(t: Table)
      requires Recorded()
      modifies this
      ensures Recorded() && st == old(st).(routes := map k | k in old(st).routes && k.0 != t :: old(st).routes[k])
      ensures trace == old(trace) + [st]
    {
      HistoryStep(calls, trace, st, Flush(t));
      st := st.(routes := map k | k in st.routes && k.0 != t :: st.routes[k]);
      calls, trace := calls + [Flush(t)], trace + [st];
    }

    method AddSidRule(f: nat, sid: Address)
      requires Recorded()
      modifies this
      ensures Recorded() && st == old(st).(sidRules := old(st).sidRules + {(f, sid)})
      ensures trace == old(trace) + [st]
    {
      HistoryStep(calls, trace, st, PutSidRule(f, sid));
      st := st.(sidRules := st.sidRules + {(f, sid)});
      calls, trace := calls + [PutSidRule(f, sid)], trace + [st];
    }

    method DeleteSidRule(f: nat, sid: Address)
      requires Recorded()
      modifies this
      ensures Recorded() && st == old(st).(sidRules := old(st).sidRules - {(f, sid)})
      ensures trace == old(trace) + [st]
    {
      HistoryStep(calls, trace, st, DropSidRule(f, sid));
      st := st.(sidRules := st.sidRules - {(f, sid)});
      calls, trace := calls + [DropSidRule(f, sid)], trace + [st];
    }

    method AddSteerRule(r: SteerRule)
      requires Recorded()
      modifies this
      ensures Recorded() && st == old(st).(steerRules := old(st).steerRules + {r})
      ensures trace == old(trace) + [st]
    {
      HistoryStep(calls, trace, st, PutSteerRule(r));
      st := st.(steerRules := st.steerRules + {r});
      calls, trace := calls + [PutSteerRule(r)], trace + [st];
    }

    method DeleteSteerRule(r: SteerRule)
      requires Recorded()
      modifies this
      ensures Recorded() && st == old(st).(steerRules := old(st).steerRules - {r})
      ensures trace == old(trace) + [st]
    {
      HistoryStep(calls, trace, st, DropSteerRule(r));
      st := st.(steerRules := st.steerRules - {r});
      calls, trace := calls + [DropSteerRule(r)], trace + [st];
    }
  }
}
