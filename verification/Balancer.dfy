/** The load balancer: three parallel vectors, proved to act as one sequence of records. */
module Balancer {
  import opened Errors
  import opened Metrics
  import opened Pools
  import opened Strategies
  import Address
  import Retry

  /** What a guard remembers of its dial. */
  datatype Guard = Guard(index: nat, genAtCreation: U64)

  class LoadBalancer {
    var backends: seq<nat>
    var ids: seq<Option<string>>
    var metrics: seq<TunnelMetrics>
    var strategy: Strategy
    var generation: U64
    var retryPolicy: Option<Retry.Policy>

    ghost predicate Valid()
      reads this
    {
      |ids| == |backends| && |metrics| == |backends| && WellFormed(strategy)
    }

    /** The pool held by the three vectors. */
    ghost function View(): (p: Pool)
      requires Valid()
      reads this
      ensures |p.members| == |backends| && p.generation == generation
      ensures MetricsOf(p) == metrics
    {
      var ms := seq(|backends|, i requires 0 <= i < |backends| reads this requires Valid() =>
                      Member(backends[i], ids[i], metrics[i]));
      Pool(ms, generation)
    }

    constructor (backends: seq<nat>, initial: seq<TunnelMetrics>, strategy: Strategy, retryPolicy: Option<Retry.Policy>)
      requires |initial| == |backends| && WellFormed(strategy)
      ensures Valid() && this.strategy == strategy && this.retryPolicy == retryPolicy
      ensures View() == Pool(seq(|backends|, i requires 0 <= i < |backends| => Member(backends[i], None, initial[i])), 0)
    {
      this.backends, ids, metrics := backends, seq(|backends|, _ => None), initial;
      this.strategy, this.retryPolicy, generation := strategy, retryPolicy, 0;
    }

    /** `new_with_metrics`. */
    static method New(backends: seq<nat>, initial: seq<TunnelMetrics>, strategy: Strategy, retryPolicy: Option<Retry.Policy>)
        returns (r: Result<LoadBalancer>)
      requires WellFormed(strategy)
      ensures backends == [] ==> r == Err(NoBackends)
      ensures backends != [] && |initial| != |backends| ==> r.Err? && r.error.Factory?
      ensures r.Ok? <==> backends != [] && |initial| == |backends|
      ensures r.Ok? ==> fresh(r.value) && r.value.Valid() && r.value.strategy == strategy
      ensures r.Ok? ==> |r.value.View().members| == |backends|
                        && forall i :: 0 <= i < |backends| ==> r.value.View().members[i] == Member(backends[i], None, initial[i])
    {
      if |backends| == 0 {
        return Err(NoBackends);
      }
      if |initial| != |backends| {
        return Err(Factory("initial_metrics.len() must equal backends.len()"));
      }
      var lb := new LoadBalancer(backends, initial, strategy, retryPolicy);
      return Ok(lb);
    }

    /** The critical section of `dial_with_options`: pick and count under both locks. */
    method BeginDial(addr: string, draw: nat) returns (r: Result<Guard>)
      requires Valid()
      modifies `metrics, `strategy
      ensures Valid()
      ensures if Address.Validate(addr).Err? then
                r == Err(Address.Validate(addr).error) && View() == old(View()) && strategy == old(strategy)
              else if old(View()).members == [] then
                r == Err(NoBackends) && View() == old(View()) && strategy == old(strategy)
              else
                var (s, idx) := PickStep(old(strategy), MetricsOf(old(View())), draw);
                r == Ok(Guard(idx, generation)) && strategy == s && View() == Begin(old(View()), idx)
    {
      var valid := Address.Validate(addr);
      if valid.Err? {
        return Err(valid.error);
      }
      if |backends| == 0 {
        return Err(NoBackends);
      }
      var (s, idx) := PickStep(strategy, metrics, draw);
      strategy := s;
      var m := metrics[idx];
      metrics := metrics[idx := m.(activeConnections := IncWrap32(m.activeConnections),
                                   totalDials := IncWrap64(m.totalDials))];
      r := Ok(Guard(idx, generation));
    }

    method HandleDialSuccess(idx: nat)
      requires Valid()
      modifies `metrics
      ensures Valid() && View() == Succeed(old(View()), idx)
      ensures forall k :: 0 <= k < |metrics| ==>
                metrics[k] == if k == idx then old(metrics)[k].(recentErrors := 0) else old(metrics)[k]
    {
      if idx < |metrics| {
        metrics := metrics[idx := metrics[idx].(recentErrors := 0)];
      }
    }

    /** The metrics part of `handle_dial_error`. */
    method CountDialError(idx: nat)
      requires Valid()
      modifies `metrics
      ensures Valid() && View() == Fail(old(View()), idx)
      ensures forall k :: 0 <= k < |metrics| && k != idx ==> metrics[k] == old(metrics)[k]
      ensures idx < |metrics| ==>
                var was, now := old(metrics)[idx], metrics[idx];
                && now.recentErrors == Min(0xFFFF_FFFF, was.recentErrors + 1)
                && now.totalErrors == Min(0xFFFF_FFFF_FFFF_FFFF, was.totalErrors + 1)
                && now.activeConnections == Max(was.activeConnections, 1) - 1
                && now.rtt == was.rtt && now.totalDials == was.totalDials
    {
      if idx < |metrics| {
        var m := metrics[idx];
        metrics := metrics[idx := m.(activeConnections := DecSat(m.activeConnections),
                                     totalErrors := IncSat64(m.totalErrors),
                                     recentErrors := IncSat32(m.recentErrors))];
      }
    }

    /** The strategy part of `handle_dial_error`, under its own lock. */
    method ReportDialError(idx: nat)
      requires Valid()
      modifies `strategy
      ensures Valid() && View() == old(View()) && strategy == ReportError(old(strategy), idx)
      ensures strategy != old(strategy) ==> old(strategy).Failover? && old(strategy).failing.primary == idx
    {
      ErrorMattersIff(strategy, idx);
      strategy := ReportError(strategy, idx);
    }

    /** A whole dial with nothing else running. `outcomes` and `stop` are as for the retry
        loop; the caller's policy takes precedence over the balancer's. */
    method Dial(addr: string, draw: nat, policy: Option<Retry.Policy>,
                outcomes: nat -> Result<nat>, draws: nat -> real, ghost stop: nat)
        returns (r: Result<Guard>)
      requires Valid() && 1 <= stop <= U32_MAX
      requires Retry.Stops(if policy.Some? then policy else retryPolicy, outcomes, draws, stop)
      modifies `metrics, `strategy
      ensures Valid()
      ensures Address.Validate(addr).Err? || old(View()).members == [] ==>
                && View() == old(View()) && strategy == old(strategy)
                && r == Err(if Address.Validate(addr).Err? then Address.Validate(addr).error else NoBackends)
      ensures Address.Validate(addr).Ok? && old(View()).members != [] ==>
                var (s, idx) := PickStep(old(strategy), MetricsOf(old(View())), draw);
                exists calls :: Retry.FirstStop(if policy.Some? then policy else retryPolicy, outcomes, draws, calls)
                  && match outcomes(calls)
                     case Ok(_) => r == Ok(Guard(idx, generation)) && strategy == s
                                   && View() == Succeed(Begin(old(View()), idx), idx)
                     case Err(e) => r == Err(e) && strategy == ReportError(s, idx)
                                    && View() == Fail(Begin(old(View()), idx), idx)
    {
      r := BeginDial(addr, draw);
      if r.Err? {
        return;
      }
      var idx := r.value.index;
      var effective := if policy.Some? then policy else retryPolicy;
      var result, calls, slept := Retry.DialWithRetry(effective, outcomes, draws, stop);
      match result
      case Ok(_) =>
        HandleDialSuccess(idx);
      case Err(e) =>
        CountDialError(idx);
        ReportDialError(idx);
        r := Err(e);
    }

    /** `ActiveConnectionGuard::drop` with nothing else running; `lockFree` says whether
        `try_write` succeeds. */
    method DropGuard(g: Guard, lockFree: bool)
      requires Valid()
      modifies `metrics
      ensures Valid()
      ensures View() == if generation == g.genAtCreation && lockFree then Release(old(View()), g.index) else old(View())
    {
      if generation != g.genAtCreation {
        return;
      }
      if lockFree {
        if g.index < |metrics| {
          metrics := metrics[g.index := Released(metrics[g.index])];
        }
      }
    }

    /** `add_backend` and `add_backend_with_id`. */
    method AddBackend(backend: nat, id: Option<string>) returns (idx: nat)
      requires Valid()
      modifies `backends, `ids, `metrics
      ensures Valid() && View() == Add(old(View()), backend, id)
      ensures View().members == old(View()).members + [Member(backend, id, TunnelMetrics(None, 0, 0, 0, 0))]
      ensures idx == |old(View()).members|
    {
      idx := |backends|;
      backends := backends + [backend];
      ids := ids + [id];
      metrics := metrics + [DEFAULT_METRICS];
    }

    method RemoveBackend(index: nat) returns (removed: bool)
      requires Valid()
      modifies `backends, `ids, `metrics, `generation
      ensures Valid() && View() == Remove(old(View()), index)
      ensures removed == (index < |old(View()).members|)
    {
      if index >= |backends| {
        return false;
      }
      generation := IncWrap64(generation);
      backends := backends[..index] + backends[index + 1..];
      ids := ids[..index] + ids[index + 1..];
      metrics := metrics[..index] + metrics[index + 1..];
      return true;
    }

    method RemoveBackendById(id: string) returns (removed: bool)
      requires Valid()
      modifies `backends, `ids, `metrics, `generation
      ensures Valid()
      ensures match Position(old(View()).members, id)
              case None => !removed && View() == old(View())
              case Some(i) => removed && View() == Remove(old(View()), i)
    {
      ghost var at := Position(View().members, id);
      var i := 0;
      while i < |ids| && ids[i] != Some(id)
        invariant i <= |ids|
        invariant forall j :: 0 <= j < i ==> View().members[j].id != Some(id)
      {
        i := i + 1;
      }
      if i < |ids| {
        assert View().members[i].id == Some(id);
        assert at == Some(i);
        removed := RemoveBackend(i);
      } else {
        removed := false;
      }
    }

    method ReplaceBackends(newBackends: seq<nat>, newStrategy: Option<Strategy>) returns (r: Result<()>)
      requires Valid() && (newStrategy.Some? ==> WellFormed(newStrategy.value))
      modifies `backends, `ids, `metrics, `generation, `strategy
      ensures Valid() && View() == Replace(old(View()), newBackends)
      ensures newBackends != [] ==>
                && |View().members| == |newBackends|
                && forall k :: 0 <= k < |newBackends| ==>
                     View().members[k] == Member(newBackends[k], None, TunnelMetrics(None, 0, 0, 0, 0))
      ensures r == if newBackends == [] then Err(NoBackends) else Ok(())
      ensures strategy == if newBackends != [] && newStrategy.Some? then newStrategy.value else old(strategy)
    {
      if |newBackends| == 0 {
        return Err(NoBackends);
      }
      generation := IncWrap64(generation);
      ids := seq(|newBackends|, _ => None);
      metrics := seq(|newBackends|, _ => DEFAULT_METRICS);
      backends := newBackends;
      if newStrategy.Some? {
        strategy := newStrategy.value;
      }
      return Ok(());
    }

    method DrainBackend(index: nat) returns (ok: bool)
      requires Valid()
      modifies `metrics
      ensures Valid() && View() == Drain(old(View()), index)
      ensures ok == (index < |View().members|)
    {
      if index >= |backends| {
        return false;
      }
      metrics := metrics[index := metrics[index].(recentErrors := U32_MAX)];
      return true;
    }

    method UndrainBackend(index: nat) returns (ok: bool)
      requires Valid()
      modifies `metrics
      ensures Valid() && View() == Undrain(old(View()), index)
      ensures forall k :: 0 <= k < |metrics| ==>
                metrics[k] == if k == index && old(metrics)[k].recentErrors == 0xFFFF_FFFF
                              then old(metrics)[k].(recentErrors := 0) else old(metrics)[k]
      ensures ok == IsDraining(old(View()), index)
    {
      if index < |metrics| {
        if metrics[index].recentErrors == U32_MAX {
          metrics := metrics[index := metrics[index].(recentErrors := 0)];
          return true;
        }
      }
      return false;
    }
  }
}
