/** Reconciliation of the pool with the descriptors found by service discovery. */
module Reconcile {
  import opened Balancer
  import opened Errors
  import opened Metrics
  import opened Pools

  datatype Descriptor = Descriptor(id: string, addr: string)

  // ----------------------------------------------------------- specification

  function Discovered(descs: seq<Descriptor>): set<string> { set d | d in descs :: d.id }

  /** The ids tracked by a list of members. */
  function Tracked(ids: seq<Option<string>>): set<string> { set x | x in ids && x.Some? :: x.value }

  function IdList(ms: seq<Member>): (r: seq<Option<string>>)
    ensures |r| == |ms| && forall i :: 0 <= i < |r| ==> r[i] == ms[i].id
  {
    seq(|ms|, i requires 0 <= i < |ms| => ms[i].id)
  }

  predicate Stays(id: Option<string>, found: set<string>) { id.None? || id.value in found }

  /** The untracked and rediscovered members, in order. */
  function Kept(ms: seq<Member>, found: set<string>): (r: seq<Member>)
    ensures |r| <= |ms|
  {
    if ms == [] then []
    else
      var n := |ms| - 1;
      Kept(ms[..n], found) + (if Stays(ms[n].id, found) then [ms[n]] else [])
  }

  /** New members for the first `k` descriptors whose ids were not tracked before; `make(p)`
      is what the factory returns for descriptor `p`. */
  function Added(descs: seq<Descriptor>, known: set<string>, make: nat -> Option<nat>, k: nat): seq<Member>
    requires k <= |descs|
  {
    if k == 0 then []
    else
      Added(descs, known, make, k - 1) +
      (if descs[k - 1].id !in known && make(k - 1).Some?
       then [Member(make(k - 1).value, Some(descs[k - 1].id), DEFAULT_METRICS)] else [])
  }

  /** The first descriptor from `k` on that the factory has to make and cannot. */
  function FirstFailure(descs: seq<Descriptor>, known: set<string>, make: nat -> Option<nat>, k: nat): (r: nat)
    requires k <= |descs|
    ensures k <= r <= |descs|
    ensures forall p :: k <= p < r ==> descs[p].id in known || make(p).Some?
    ensures r < |descs| ==> descs[r].id !in known && make(r).None?
    decreases |descs| - k
  {
    if k == |descs| || (descs[k].id !in known && make(k).None?) then k
    else FirstFailure(descs, known, make, k + 1)
  }

  lemma {:induction false} KeptStay(ms: seq<Member>, found: set<string>)
    ensures forall m :: m in Kept(ms, found) ==> m in ms && Stays(m.id, found)
    ensures (forall m :: m in ms ==> Stays(m.id, found)) ==> Kept(ms, found) == ms
  {
    if ms == [] {
    } else {
      KeptStay(ms[..|ms| - 1], found);
      assert ms == ms[..|ms| - 1] + [ms[|ms| - 1]];
    }
  }

  // ------------------------------------------------------------ the two loops

  /** The members once the snapshot's first `i` ids have been visited. */
  ghost function Visited(ms: seq<Member>, found: set<string>, i: nat): (r: seq<Member>)
    requires i <= |ms|
    ensures |r| <= |ms|
  {
    Kept(ms[..i], found) + ms[i..]
  }

  lemma VisitedEnds(ms: seq<Member>, found: set<string>)
    ensures Visited(ms, found, 0) == ms && Visited(ms, found, |ms|) == Kept(ms, found)
  {
    assert ms[..|ms|] == ms && ms[|ms|..] == [];
  }

  /** Visiting a member that goes removes the first one with its id, which is that member,
      duplicates included; visiting one that stays changes nothing. */
  lemma VisitNext(ms: seq<Member>, found: set<string>, i: nat)
    requires i < |ms|
    ensures if Stays(ms[i].id, found) then Visited(ms, found, i + 1) == Visited(ms, found, i)
            else var all, k := Visited(ms, found, i), |Kept(ms[..i], found)|;
                 && Position(all, ms[i].id.value) == Some(k) && k < |all|
                 && all[..k] + all[k + 1..] == Visited(ms, found, i + 1)
  {
    hide Position;
    var done, rest := Kept(ms[..i], found), ms[i..];
    assert ms[..i + 1][..i] == ms[..i];
    assert rest == [ms[i]] + ms[i + 1..];
    if Stays(ms[i].id, found) {
      assert done + [ms[i]] + ms[i + 1..] == done + rest;
    } else {
      KeptStay(ms[..i], found);
      FirstWithId(done, rest, ms[i].id.value);
      RemoveAtSeam(done, rest);
      assert rest[1..] == ms[i + 1..] && done + [] == done;
    }
  }

  lemma FirstWithId(a: seq<Member>, b: seq<Member>, id: string)
    requires b != [] && b[0].id == Some(id) && forall m :: m in a ==> m.id != Some(id)
    ensures Position(a + b, id) == Some(|a|)
  {
    assert (a + b)[|a|] == b[0];
    forall k | 0 <= k < |a| ensures (a + b)[k].id != Some(id) { assert a[k] in a; }
  }

  /** The generation after `n` bumps. */
  function Bumped(g: U64, n: nat): U64 { if n == 0 then g else IncWrap64(Bumped(g, n - 1)) }

  lemma BumpedSteps(g: U64, n: nat)
    ensures Bumped(g, 0) == g && Bumped(g, n + 1) == IncWrap64(Bumped(g, n))
  {}

  method RemoveVanished(lb: LoadBalancer, current: seq<Option<string>>, found: set<string>)
    requires lb.Valid() && current == IdList(lb.View().members)
    modifies lb`backends, lb`ids, lb`metrics, lb`generation
    ensures lb.Valid()
    ensures var before := old(lb.View()).members;
            && lb.View().members == Kept(before, found)
            && lb.generation == Bumped(old(lb.generation), |before| - |lb.View().members|)
  {
    hide Visited, Kept, Bumped;
    ghost var before, g, gone := lb.View().members, lb.generation, 0;
    VisitedEnds(before, found);
    BumpedSteps(g, 0);
    for i := 0 to |current|
      invariant lb.Valid() && lb.View().members == Visited(before, found, i)
      invariant gone + |lb.View().members| == |before| && lb.generation == Bumped(g, gone)
    {
      if current[i].Some? && current[i].value !in found {
        RemoveVisited(lb, before, found, i, current[i].value);
        BumpedSteps(g, gone);
        gone := gone + 1;
      } else {
        VisitNext(before, found, i);
      }
    }
  }

  method RemoveVisited(lb: LoadBalancer, ghost before: seq<Member>, found: set<string>, ghost i: nat, id: string)
    requires lb.Valid() && i < |before| && before[i].id == Some(id) && id !in found
    requires lb.View().members == Visited(before, found, i)
    modifies lb`backends, lb`ids, lb`metrics, lb`generation
    ensures lb.Valid() && lb.View().members == Visited(before, found, i + 1)
    ensures |lb.View().members| + 1 == |old(lb.View()).members|
    ensures lb.generation == IncWrap64(old(lb.generation))
  {
    hide Visited, Kept, Position;
    VisitNext(before, found, i);
    var removed := lb.RemoveBackendById(id);
  }

  method AddNew(lb: LoadBalancer, current: seq<Option<string>>, descs: seq<Descriptor>, make: nat -> Option<nat>)
      returns (r: Result<()>)
    requires lb.Valid()
    modifies lb`backends, lb`ids, lb`metrics
    ensures lb.Valid() && lb.generation == old(lb.generation)
    ensures var k := FirstFailure(descs, Tracked(current), make, 0);
            && lb.View().members == old(lb.View()).members + Added(descs, Tracked(current), make, k)
            && (r.Ok? <==> k == |descs|)
  {
    ghost var start, known := lb.View().members, Tracked(current);
    for p := 0 to |descs|
      invariant lb.Valid() && lb.generation == old(lb.generation)
      invariant lb.View().members == start + Added(descs, known, make, p)
      invariant FirstFailure(descs, known, make, 0) == FirstFailure(descs, known, make, p)
    {
      if Some(descs[p].id) !in current {
        assert descs[p].id !in known;
        match make(p)
        case None =>
          return Err(Factory("backend factory failed"));
        case Some(backend) =>
          var _ := lb.AddBackend(backend, Some(descs[p].id));
          AddAtEnd(start, Added(descs, known, make, p), Member(backend, Some(descs[p].id), DEFAULT_METRICS));
      } else {
        assert descs[p].id in known;
      }
    }
    return Ok(());
  }

  /** `reconcile`: the in-place diff leaves exactly the kept members, each with its own
      metrics, followed by what was made before the first factory failure. */
  method Reconcile(lb: LoadBalancer, descs: seq<Descriptor>, make: nat -> Option<nat>) returns (r: Result<()>)
    requires lb.Valid()
    modifies lb`backends, lb`ids, lb`metrics, lb`generation
    ensures lb.Valid()
    ensures var before := old(lb.View()).members;
            var kept, known := Kept(before, Discovered(descs)), Tracked(IdList(before));
            var k := FirstFailure(descs, known, make, 0);
            && lb.View().members == kept + Added(descs, known, make, k)
            && lb.generation == Bumped(old(lb.generation), |before| - |kept|)
            && (r.Ok? <==> k == |descs|)
  {
    var current := lb.ids;
    assert current == IdList(lb.View().members);
    RemoveVanished(lb, current, Discovered(descs));
    r := AddNew(lb, current, descs, make);
  }

  lemma RemoveAtSeam(a: seq<Member>, b: seq<Member>)
    requires b != []
    ensures (a + b)[..|a|] + (a + b)[|a| + 1..] == a + b[1..]
  {}

  lemma AddAtEnd(a: seq<Member>, b: seq<Member>, m: Member)
    ensures a + b + [m] == a + (b + [m])
  {}

  // ------------------------------------------------------------- closed form

  function KeptIds(ids: seq<Option<string>>, found: set<string>): seq<Option<string>> {
    if ids == [] then []
    else
      var n := |ids| - 1;
      KeptIds(ids[..n], found) + (if Stays(ids[n], found) then [ids[n]] else [])
  }

  /** The ids of the descriptors that were not known, duplicates included. */
  function NewIds(descs: seq<Descriptor>, known: set<string>): seq<Option<string>> {
    if descs == [] then []
    else
      var n := |descs| - 1;
      NewIds(descs[..n], known) + (if descs[n].id in known then [] else [Some(descs[n].id)])
  }

  /** The id list a successful reconciliation ends with. */
  function Target(ids: seq<Option<string>>, descs: seq<Descriptor>): seq<Option<string>> {
    KeptIds(ids, Discovered(descs)) + NewIds(descs, Tracked(ids))
  }

  lemma {:induction false} KeptIdList(ms: seq<Member>, found: set<string>)
    ensures IdList(Kept(ms, found)) == KeptIds(IdList(ms), found)
  {
    if ms == [] {
    } else {
      KeptIdList(ms[..|ms| - 1], found);
      assert IdList(ms)[..|ms| - 1] == IdList(ms[..|ms| - 1]);
    }
  }

  lemma {:induction false} AddedIdList(descs: seq<Descriptor>, known: set<string>, make: nat -> Option<nat>, k: nat)
    requires k <= FirstFailure(descs, known, make, 0)
    ensures IdList(Added(descs, known, make, k)) == NewIds(descs[..k], known)
  {
    if k == 0 {
    } else {
      AddedIdList(descs, known, make, k - 1);
      assert descs[..k][..k - 1] == descs[..k - 1];
    }
  }

  /** What `Reconcile` leaves, as an id list: up to descriptor `k`, where it stopped. */
  lemma ReconciledIds(ms: seq<Member>, descs: seq<Descriptor>, make: nat -> Option<nat>, k: nat)
    requires k <= FirstFailure(descs, Tracked(IdList(ms)), make, 0)
    ensures IdList(Kept(ms, Discovered(descs)) + Added(descs, Tracked(IdList(ms)), make, k))
         == KeptIds(IdList(ms), Discovered(descs)) + NewIds(descs[..k], Tracked(IdList(ms)))
    ensures k == |descs| ==>
              IdList(Kept(ms, Discovered(descs)) + Added(descs, Tracked(IdList(ms)), make, k)) == Target(IdList(ms), descs)
  {
    KeptIdList(ms, Discovered(descs));
    AddedIdList(descs, Tracked(IdList(ms)), make, k);
    if k == |descs| { assert descs[..k] == descs; }
  }

  predicate Increasing(at: seq<nat>) { forall i, j :: 0 <= i < j < |at| ==> at[i] < at[j] }

  /** Where the members whose id stays are, among the first `k`, in order. */
  function Staying(ms: seq<Member>, found: set<string>, k: nat): (at: seq<nat>)
    requires k <= |ms|
    ensures forall q :: 0 <= q < |at| ==> at[q] < k
  {
    if k == 0 then []
    else
      var rest := Staying(ms, found, k - 1);
      if ms[k - 1].id.Some? && ms[k - 1].id.value !in found then rest else rest + [k - 1]
  }

  lemma {:induction false} StayingIff(ms: seq<Member>, found: set<string>, k: nat, p: nat)
    requires k <= |ms|
    ensures Increasing(Staying(ms, found, k))
    ensures p < k ==> (p in Staying(ms, found, k) <==> ms[p].id.None? || ms[p].id.value in found)
  {
    if k == 0 {
    } else {
      StayingIff(ms, found, k - 1, p);
    }
  }

  /** The kept members are, in order, exactly those. */
  lemma {:induction false} KeptMembers(ms: seq<Member>, found: set<string>, k: nat, q: nat)
    requires k <= |ms|
    ensures var at := Staying(ms, found, k);
            && |Kept(ms[..k], found)| == |at|
            && (q < |at| ==> Kept(ms[..k], found)[q] == ms[at[q]])
  {
    hide Increasing;
    if k == 0 {
    } else {
      KeptMembers(ms, found, k - 1, q);
      assert ms[..k][..k - 1] == ms[..k - 1] && ms[..k][k - 1] == ms[k - 1];
    }
  }

  /** The unknown ones among the first `k` descriptors, in order. */
  function Unknown(descs: seq<Descriptor>, known: set<string>, k: nat): (at: seq<nat>)
    requires k <= |descs|
    ensures forall q :: 0 <= q < |at| ==> at[q] < k
  {
    if k == 0 then []
    else
      var rest := Unknown(descs, known, k - 1);
      if descs[k - 1].id in known then rest else rest + [k - 1]
  }

  lemma {:induction false} UnknownIff(descs: seq<Descriptor>, known: set<string>, k: nat, p: nat)
    requires k <= |descs|
    ensures Increasing(Unknown(descs, known, k))
    ensures p < k ==> (p in Unknown(descs, known, k) <==> descs[p].id !in known)
  {
    if k == 0 {
    } else {
      UnknownIff(descs, known, k - 1, p);
    }
  }

  /** The member for descriptor `p`: what the factory made for it, under its id, with fresh metrics. */
  function MadeFor(descs: seq<Descriptor>, make: nat -> Option<nat>, p: nat): Member
    requires p < |descs| && make(p).Some?
  {
    Member(make(p).value, Some(descs[p].id), DEFAULT_METRICS)
  }

  /** The factory makes what the first `k` descriptors need. */
  predicate Makeable(descs: seq<Descriptor>, known: set<string>, make: nat -> Option<nat>, k: nat)
    requires k <= |descs|
  {
    forall p :: 0 <= p < k ==> descs[p].id in known || make(p).Some?
  }

  lemma MakeableStep(descs: seq<Descriptor>, known: set<string>, make: nat -> Option<nat>, k: nat)
    requires 0 < k <= |descs| && Makeable(descs, known, make, k)
    ensures Makeable(descs, known, make, k - 1) && (descs[k - 1].id in known || make(k - 1).Some?)
  {}

  /** The new members are, in order, those made for the unknown descriptors. */
  lemma {:induction false} AddedMembers(descs: seq<Descriptor>, known: set<string>, make: nat -> Option<nat>, k: nat, q: nat)
    requires k <= |descs| && Makeable(descs, known, make, k)
    ensures var at := Unknown(descs, known, k);
            && |Added(descs, known, make, k)| == |at|
            && (q < |at| ==> make(at[q]).Some? && Added(descs, known, make, k)[q] == MadeFor(descs, make, at[q]))
  {
    hide Makeable, Increasing;
    if k == 0 {
    } else {
      MakeableStep(descs, known, make, k);
      AddedMembers(descs, known, make, k - 1, q);
    }
  }

  /** What `Reconcile` leaves, member by member: first the survivors, each as it was, then what
      the factory made for the unknown descriptors before its first failure. `kept` and `added`
      say which, in order: all members whose id stays, and all descriptors not tracked before. */
  lemma ReconciledMembers(ms: seq<Member>, descs: seq<Descriptor>, make: nat -> Option<nat>, p: nat, q: nat)
    ensures var found, known := Discovered(descs), Tracked(IdList(ms));
            var k := FirstFailure(descs, known, make, 0);
            var kept, added := Staying(ms, found, |ms|), Unknown(descs, known, k);
            var after := Kept(ms, found) + Added(descs, known, make, k);
            && Increasing(kept) && Increasing(added) && |after| == |kept| + |added|
            && (p < |ms| ==> (p in kept <==> ms[p].id.None? || ms[p].id.value in found))
            && (p < k ==> (p in added <==> Some(descs[p].id) !in IdList(ms)))
            && (q < |kept| ==> after[q] == ms[kept[q]])
            && (q < |added| ==>
                 && make(added[q]).Some?
                 && var m := after[|kept| + q];
                    && m.backend == make(added[q]).value && m.id == Some(descs[added[q]].id)
                    && m.metrics == TunnelMetrics(None, 0, 0, 0, 0))
  {
    hide Kept, Staying, Added, FirstFailure, Unknown, Tracked, IdList, Discovered, Makeable, Increasing;
    var found, known := Discovered(descs), Tracked(IdList(ms));
    var k := FirstFailure(descs, known, make, 0);
    MakeableToFailure(descs, known, make);
    assert ms[..|ms|] == ms;
    KeptMembers(ms, found, |ms|, q);
    AddedMembers(descs, known, make, k, q);
    StayingIff(ms, found, |ms|, p);
    UnknownIff(descs, known, k, p);
    if p < k { TrackedIff(IdList(ms), descs[p].id); }
  }

  lemma MakeableToFailure(descs: seq<Descriptor>, known: set<string>, make: nat -> Option<nat>)
    ensures Makeable(descs, known, make, FirstFailure(descs, known, make, 0))
  {}

  // ------------------------------------------------- idempotent and resumable

  lemma {:induction false} AddedAreDescribed(descs: seq<Descriptor>, known: set<string>, make: nat -> Option<nat>, k: nat)
    requires k <= |descs|
    ensures forall m :: m in Added(descs, known, make, k) ==> Stays(m.id, Discovered(descs))
  {
    if k == 0 {
    } else {
      AddedAreDescribed(descs, known, make, k - 1);
    }
  }

  lemma {:induction false} AddedNone(descs: seq<Descriptor>, known: set<string>, make: nat -> Option<nat>, k: nat)
    requires k <= |descs| && forall p :: 0 <= p < k ==> descs[p].id in known
    ensures Added(descs, known, make, k) == []
  {
    if k == 0 {
    } else {
      AddedNone(descs, known, make, k - 1);
    }
  }

  /** Reconciling again with the same descriptors changes nothing, whatever the factory does. */
  lemma Idempotent(ms: seq<Member>, descs: seq<Descriptor>, make: nat -> Option<nat>, make': nat -> Option<nat>)
    requires FirstFailure(descs, Tracked(IdList(ms)), make, 0) == |descs|
    ensures var found := Discovered(descs);
            var after := Kept(ms, found) + Added(descs, Tracked(IdList(ms)), make, |descs|);
            && Kept(after, found) == after
            && FirstFailure(descs, Tracked(IdList(after)), make', 0) == |descs|
            && Added(descs, Tracked(IdList(after)), make', |descs|) == []
  {
    var found, known := Discovered(descs), Tracked(IdList(ms));
    var after := Kept(ms, found) + Added(descs, known, make, |descs|);
    KeptStay(ms, found);
    AddedAreDescribed(descs, known, make, |descs|);
    KeptStay(after, found);
    ReconciledIds(ms, descs, make, |descs|);
    forall p | 0 <= p < |descs| ensures descs[p].id in Tracked(IdList(after)) {
      TrackedInTarget(IdList(ms), descs, descs[p]);
    }
    AddedNone(descs, Tracked(IdList(after)), make', |descs|);
  }

  lemma {:induction false} InKeptIds(ids: seq<Option<string>>, found: set<string>, x: Option<string>)
    ensures x in KeptIds(ids, found) <==> x in ids && Stays(x, found)
  {
    if ids == [] {
    } else {
      InKeptIds(ids[..|ids| - 1], found, x);
      assert ids == ids[..|ids| - 1] + [ids[|ids| - 1]];
    }
  }

  lemma {:induction false} InNewIds(descs: seq<Descriptor>, known: set<string>, x: string)
    ensures None !in NewIds(descs, known)
    ensures Some(x) in NewIds(descs, known) <==> x in Discovered(descs) && x !in known
  {
    if descs == [] {
    } else {
      InNewIds(descs[..|descs| - 1], known, x);
      assert descs == descs[..|descs| - 1] + [descs[|descs| - 1]];
    }
  }

  lemma TrackedInTarget(ids: seq<Option<string>>, descs: seq<Descriptor>, d: Descriptor)
    requires d in descs
    ensures d.id in Tracked(Target(ids, descs))
  {
    InKeptIds(ids, Discovered(descs), Some(d.id));
    InNewIds(descs, Tracked(ids), d.id);
    assert Some(d.id) in Target(ids, descs);
  }

  lemma {:induction false} NewIdsAppend(a: seq<Descriptor>, b: seq<Descriptor>, known: set<string>)
    ensures NewIds(a + b, known) == NewIds(a, known) + NewIds(b, known)
  {
    if b == [] {
      assert a + b == a;
    } else {
      var n := |b| - 1;
      NewIdsAppend(a, b[..n], known);
      assert (a + b)[..|a + b| - 1] == a + b[..n];
    }
  }

  /** Knowing more ids can only shorten the list of new ones, and does so exactly when one of
      them was extra. */
  lemma {:induction false} NewIdsShrink(descs: seq<Descriptor>, known: set<string>, more: set<string>)
    ensures |NewIds(descs, known + more)| <= |NewIds(descs, known)|
    ensures NewIds(descs, known + more) == NewIds(descs, known) <==> Covered(descs, known, more)
  {
    if descs == [] {
    } else {
      var n := |descs| - 1;
      NewIdsShrink(descs[..n], known, more);
      CoveredLast(descs, known, more);
      var a, b := NewIds(descs[..n], known + more), NewIds(descs[..n], known);
      SameLast(a, b, Some(descs[n].id));
      assert a + [] == a && b + [] == b;
    }
  }

  /** Every descriptor found among `more` was known already. */
  ghost predicate Covered(descs: seq<Descriptor>, known: set<string>, more: set<string>) {
    forall d :: d in descs && d.id in more ==> d.id in known
  }

  lemma CoveredLast(descs: seq<Descriptor>, known: set<string>, more: set<string>)
    requires descs != []
    ensures var n := |descs| - 1;
            Covered(descs, known, more)
            <==> Covered(descs[..n], known, more) && (descs[n].id in more ==> descs[n].id in known)
  {
    var n := |descs| - 1;
    assert descs == descs[..n] + [descs[n]];
    assert descs[n] in descs;
  }

  lemma SameLast(a: seq<Option<string>>, b: seq<Option<string>>, x: Option<string>)
    ensures a + [x] == b + [x] ==> a == b
  {
    assert a == (a + [x])[..|a|] && b == (b + [x])[..|b|];
  }

  /** A factory failure at descriptor `k` followed by a successful retry ends in the same id
      list as an uninterrupted run exactly when no untracked descriptor from `k` on repeats an
      id from before `k`; distinct descriptor ids are enough. */
  lemma ResumableIff(ids: seq<Option<string>>, descs: seq<Descriptor>, k: nat)
    requires k <= |descs|
    ensures var halfway := KeptIds(ids, Discovered(descs)) + NewIds(descs[..k], Tracked(ids));
            Target(halfway, descs) == Target(ids, descs) <==>
            Covered(descs[k..], Tracked(ids), Discovered(descs[..k]))
  {
    hide KeptIds, NewIds, Tracked, Discovered, Covered;
    var found, known, early := Discovered(descs), Tracked(ids), Discovered(descs[..k]);
    var done, rest := descs[..k], descs[k..];
    var halfway := KeptIds(ids, found) + NewIds(done, known);
    HalfwayKept(ids, descs, k);
    HalfwayTracked(ids, descs, k);
    NewIdsAgree(descs, Tracked(halfway), known + early);
    assert done + rest == descs;
    NewIdsAppend(done, rest, known);
    NewIdsAppend(done, rest, known + early);
    NewIdsNone(done, known, early);
    NewIdsShrink(rest, known, early);
    CancelPrefix(halfway, NewIds(rest, known + early), NewIds(rest, known));
    assert Target(ids, descs) == halfway + NewIds(rest, known);
  }

  lemma CancelPrefix(a: seq<Option<string>>, b: seq<Option<string>>, c: seq<Option<string>>)
    ensures a + b == a + c <==> b == c
  {
    assert b == (a + b)[|a|..] && c == (a + c)[|a|..];
  }

  lemma HalfwayKept(ids: seq<Option<string>>, descs: seq<Descriptor>, k: nat)
    requires k <= |descs|
    ensures var halfway := KeptIds(ids, Discovered(descs)) + NewIds(descs[..k], Tracked(ids));
            KeptIds(halfway, Discovered(descs)) == halfway
  {
    var found := Discovered(descs);
    var halfway := KeptIds(ids, found) + NewIds(descs[..k], Tracked(ids));
    forall x | x in halfway ensures Stays(x, found) {
      InKeptIds(ids, found, x);
      if x.Some? { InNewIds(descs[..k], Tracked(ids), x.value); }
    }
    KeptIdsAll(halfway, found);
  }

  lemma {:induction false} KeptIdsAll(ids: seq<Option<string>>, found: set<string>)
    requires forall x :: x in ids ==> Stays(x, found)
    ensures KeptIds(ids, found) == ids
  {
    if ids == [] {
    } else {
      KeptIdsAll(ids[..|ids| - 1], found);
      assert ids == ids[..|ids| - 1] + [ids[|ids| - 1]];
    }
  }

  lemma HalfwayTracked(ids: seq<Option<string>>, descs: seq<Descriptor>, k: nat)
    requires k <= |descs|
    ensures var halfway := KeptIds(ids, Discovered(descs)) + NewIds(descs[..k], Tracked(ids));
            forall d :: d in descs ==>
              (d.id in Tracked(halfway) <==> d.id in Tracked(ids) + Discovered(descs[..k]))
  {
    var found, known := Discovered(descs), Tracked(ids);
    var halfway := KeptIds(ids, found) + NewIds(descs[..k], known);
    forall d | d in descs
      ensures d.id in Tracked(halfway) <==> d.id in known + Discovered(descs[..k])
    {
      InKeptIds(ids, found, Some(d.id));
      InNewIds(descs[..k], known, d.id);
      TrackedIff(halfway, d.id);
      TrackedIff(ids, d.id);
    }
  }

  lemma TrackedIff(ids: seq<Option<string>>, x: string)
    ensures x in Tracked(ids) <==> Some(x) in ids
  {}

  lemma {:induction false} NewIdsAgree(descs: seq<Descriptor>, a: set<string>, b: set<string>)
    requires forall d :: d in descs ==> (d.id in a <==> d.id in b)
    ensures NewIds(descs, a) == NewIds(descs, b)
  {
    if descs == [] {
    } else {
      NewIdsAgree(descs[..|descs| - 1], a, b);
    }
  }

  lemma {:induction false} NewIdsNone(descs: seq<Descriptor>, known: set<string>, early: set<string>)
    requires Discovered(descs) <= early
    ensures NewIds(descs, known + early) == []
  {
    if descs == [] {
    } else {
      NewIdsNone(descs[..|descs| - 1], known, early);
    }
  }

  /** Distinct descriptor ids always resume. */
  lemma DistinctIdsResume(ids: seq<Option<string>>, descs: seq<Descriptor>, k: nat)
    requires k <= |descs| && forall p, q :: 0 <= p < q < |descs| ==> descs[p].id != descs[q].id
    ensures Target(KeptIds(ids, Discovered(descs)) + NewIds(descs[..k], Tracked(ids)), descs) == Target(ids, descs)
  {
    ResumableIff(ids, descs, k);
    assert Covered(descs[k..], Tracked(ids), Discovered(descs[..k]));
  }

  /** With a repeated id it fails: from an empty pool, a failure between two descriptors with
      the same id loses one of them. */
  lemma RepeatedIdIsLost(d: Descriptor)
    ensures var descs := [d, d];
            Target(KeptIds([], Discovered(descs)) + NewIds(descs[..1], Tracked([])), descs) != Target([], descs)
  {
    var descs := [d, d];
    hide Target, KeptIds, NewIds;
    ResumableIff([], descs, 1);
    assert descs[..1] == [d] && descs[1..] == [d];
    assert d in descs[1..] && d in descs[..1] && d.id in Discovered(descs[..1]) && d.id !in Tracked([]);
  }
}
