/** The pool as one sequence of records, with the effect of each balancer operation. */
module Pools {
  import opened Metrics
  import Health
  import Selection

  /** One backend with its discovery id and metrics. Backends are named by a number; a box
      moved into the pool is a backend the pool does not hold yet. */
  datatype Member = Member(backend: nat, id: Option<string>, metrics: TunnelMetrics)

  datatype Pool = Pool(members: seq<Member>, generation: U64)

  function MetricsOf(p: Pool): (r: seq<TunnelMetrics>)
    ensures |r| == |p.members| && forall i :: 0 <= i < |r| ==> r[i] == p.members[i].metrics
  {
    seq(|p.members|, i requires 0 <= i < |p.members| => p.members[i].metrics)
  }

  /** Member `i`'s metrics replaced; nothing happens outside the pool. */
  function Set(p: Pool, i: nat, m: TunnelMetrics): Pool {
    if i < |p.members| then p.(members := p.members[i := p.members[i].(metrics := m)]) else p
  }

  /** A dial begins on member `i`. */
  function Begin(p: Pool, i: nat): Pool
    requires i < |p.members|
  {
    Set(p, i, Selection.Counted(p.members[i].metrics))
  }

  function Succeed(p: Pool, i: nat): Pool {
    if i < |p.members| then Set(p, i, Health.Recorded(p.members[i].metrics, true)) else p
  }

  function Released(m: TunnelMetrics): TunnelMetrics {
    m.(activeConnections := DecSat(m.activeConnections))
  }

  function Fail(p: Pool, i: nat): Pool {
    if i < |p.members| then Set(p, i, Released(Health.Recorded(p.members[i].metrics, false))) else p
  }

  /** The decrement of a dropped guard. */
  function Release(p: Pool, i: nat): Pool {
    if i < |p.members| then Set(p, i, Released(p.members[i].metrics)) else p
  }

  function Add(p: Pool, backend: nat, id: Option<string>): Pool {
    p.(members := p.members + [Member(backend, id, DEFAULT_METRICS)])
  }

  function Remove(p: Pool, i: nat): Pool {
    if i < |p.members| then Pool(p.members[..i] + p.members[i + 1..], IncWrap64(p.generation)) else p
  }

  function Replace(p: Pool, backends: seq<nat>): Pool {
    if backends == [] then p
    else Pool(seq(|backends|, i requires 0 <= i < |backends| => Member(backends[i], None, DEFAULT_METRICS)),
              IncWrap64(p.generation))
  }

  function Drain(p: Pool, i: nat): Pool {
    if i < |p.members| then Set(p, i, p.members[i].metrics.(recentErrors := U32_MAX)) else p
  }

  predicate IsDraining(p: Pool, i: nat) {
    i < |p.members| && p.members[i].metrics.recentErrors == U32_MAX
  }

  function Undrain(p: Pool, i: nat): Pool {
    if IsDraining(p, i) then Set(p, i, p.members[i].metrics.(recentErrors := 0)) else p
  }

  /** The first member with a discovery id. */
  function Position(members: seq<Member>, id: string): (r: Option<nat>)
    ensures r.Some? ==> r.value < |members| && members[r.value].id == Some(id)
                        && forall i :: 0 <= i < r.value ==> members[i].id != Some(id)
    ensures r.None? ==> forall i :: 0 <= i < |members| ==> members[i].id != Some(id)
  {
    if members == [] then None
    else if members[0].id == Some(id) then Some(0)
    else
      match Position(members[1..], id)
      case None => None
      case Some(k) => Some(k + 1)
  }
}
