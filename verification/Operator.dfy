/** The operator serving a run of requests: what it keeps, stated on the mutable stores. */
module Operator {
  import opened Ipam
  import opened Admission
  import opened LeaseCoverage
  import opened PoolCoverage
  import opened PoolRuns
  import opened PoolExact
  import opened SecretAgreement
  import opened LeaseExact
  import Pools

  /** Leases and pools agree with the committed Services after any run, as they did before it. */
  method Serve(ops: seq<Op>, kube: Pools.Kube, ipam: IpamApi)
    requires LeasesCover(World(kube.State(), ipam.State())) && LeaseAssumptions(World(kube.State(), ipam.State()), ops)
    requires PoolsCover(World(kube.State(), ipam.State())) && PoolAssumptions(World(kube.State(), ipam.State()), ops)
    modifies kube, ipam
    ensures World(kube.State(), ipam.State()) == Run(World(old(kube.State()), old(ipam.State())), ops)
    ensures LeasesCover(World(kube.State(), ipam.State()))
    ensures PoolsCover(World(kube.State(), ipam.State()))
  {
    hide LeasesCover, PoolsCover, LeaseAssumptions, PoolAssumptions, Run;
    LeasesCoverRun(World(kube.State(), ipam.State()), ops);
    PoolsCoverRun(World(kube.State(), ipam.State()), ops);
    AdmitAll(ops, kube, ipam);
  }

  /** From an empty cluster the pools are exact after any run whose commits are clean, whatever else fails. */
  method ServeExactly(ops: seq<Op>, kube: Pools.Kube, ipam: IpamApi)
    requires kube.services == [] && kube.pools == map[]
    requires ExactAssumptions(World(kube.State(), ipam.State()), ops)
    modifies kube, ipam
    ensures World(kube.State(), ipam.State()) == Run(World(old(kube.State()), old(ipam.State())), ops)
    ensures PoolsExact(World(kube.State(), ipam.State()))
  {
    hide PoolsExact, ExactAssumptions, Run;
    EmptyExact(World(kube.State(), ipam.State()));
    PoolsExactRun(World(kube.State(), ipam.State()), ops);
    AdmitAll(ops, kube, ipam);
  }

  /** Leases stay under the values of the committed Services' secrets. */
  method ServeAgreeing(ops: seq<Op>, kube: Pools.Kube, ipam: IpamApi)
    requires LeasesCover(World(kube.State(), ipam.State())) && AllAgree(World(kube.State(), ipam.State()))
    requires SecretAssumptions(World(kube.State(), ipam.State()), ops)
    modifies kube, ipam
    ensures World(kube.State(), ipam.State()) == Run(World(old(kube.State()), old(ipam.State())), ops)
    ensures AllAgree(World(kube.State(), ipam.State()))
  {
    hide LeasesCover, AllAgree, SecretAssumptions, Run;
    SecretsRun(World(kube.State(), ipam.State()), ops);
    AdmitAll(ops, kube, ipam);
  }

  /** From an empty cluster and register the leases are exact after any run whose calls are answered and that leaves
      nothing behind. */
  method ServeLeases(ops: seq<Op>, kube: Pools.Kube, ipam: IpamApi)
    requires kube.services == [] && ipam.leases == map[]
    requires DeliveredRun(World(kube.State(), ipam.State()), ops) && NothingLeftRun(World(kube.State(), ipam.State()), ops)
    modifies kube, ipam
    ensures World(kube.State(), ipam.State()) == Run(World(old(kube.State()), old(ipam.State())), ops)
    ensures LeasesExact(World(kube.State(), ipam.State()))
  {
    hide LeasesExact, AllAgree, DeliveredRun, NothingLeftRun, Run;
    EmptyLeases(World(kube.State(), ipam.State()));
    LeasesExactIff(World(kube.State(), ipam.State()), ops);
    ThroughoutEnd(World(kube.State(), ipam.State()), ops);
    AdmitAll(ops, kube, ipam);
  }
}
