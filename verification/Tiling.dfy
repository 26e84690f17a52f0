/**
 Splitting the devices of a simulation over a master and its secondaries (SimulationRunner::run).
 */
module Tiling {

  /** What a secondary is told: its first device, how many, and its status slot on the master. */
  datatype Slice = Slice(offset: nat, limit: nat, index: nat)

  function BatchSize(devices: nat, services: nat): nat
  {
    devices / (services + 1)
  }

  /** The modulus of the source; zero (and the remainder undefined) when there are too few devices. */
  function PadModulus(devices: nat, services: nat): nat
  {
    BatchSize(devices, services) * (services + 1)
  }

  /** How many devices the master keeps. */
  function MasterShare(devices: nat, services: nat): nat
    requires PadModulus(devices, services) != 0
  {
    BatchSize(devices, services) + devices % PadModulus(devices, services)
  }

  function SliceOf(devices: nat, services: nat, i: nat): Slice
    requires PadModulus(devices, services) != 0
  {
    Slice(MasterShare(devices, services) + i * BatchSize(devices, services), BatchSize(devices, services), i + 1)
  }

  function RemoteSlices(devices: nat, services: nat): seq<Slice>
    requires PadModulus(devices, services) != 0
  {
    seq(services, i requires i >= 0 => SliceOf(devices, services, i))
  }

  predicate In(d: nat, s: Slice)
  {
    s.offset <= d < s.offset + s.limit
  }

  lemma Quotient(devices: nat, n: nat)
    requires n > 0
    ensures devices / n * n <= devices < devices / n * n + n
  {
  }

  /** The modulus is usable exactly when every node can get a device. */
  lemma ModulusIsZeroIff(devices: nat, services: nat)
    ensures PadModulus(devices, services) == 0 <==> devices < services + 1
  {
    Quotient(devices, services + 1);
    var b := BatchSize(devices, services);
    if b >= 1 {
      assert b * (services + 1) >= services + 1;
    }
  }

  /** The padding is the plain remainder of the division, all of it kept by the master. */
  lemma PadIsRemainder(devices: nat, services: nat)
    requires devices >= services + 1
    ensures PadModulus(devices, services) != 0
    ensures devices % PadModulus(devices, services) == devices % (services + 1)
    ensures MasterShare(devices, services) + services * BatchSize(devices, services) == devices
  {
    ModulusIsZeroIff(devices, services);
    Quotient(devices, services + 1);
    var b, m := BatchSize(devices, services), PadModulus(devices, services);
    assert m >= services + 1 by { assert b >= 1; }
    assert devices % (services + 1) == devices - m;
    Remainder(devices, m);
    assert b + (devices - m) + services * b == devices;
  }

  lemma Remainder(a: nat, m: nat)
    requires 0 < m <= a < m + m
    ensures a % m == a - m
  {
  }

  lemma {:induction false} Ordered(b: nat, i: nat, j: nat)
    requires i < j
    ensures i * b + b <= j * b
  {
    if i + 1 < j {
      Ordered(b, i, j - 1);
      assert j * b == (j - 1) * b + b;
    } else {
      assert j * b == i * b + b;
    }
  }

  /** The min of the source never trims a slice and its subtraction never goes below zero. */
  lemma MinNeverTrims(devices: nat, services: nat, i: nat)
    requires devices >= services + 1 && i < services
    ensures PadModulus(devices, services) != 0
    ensures var s := SliceOf(devices, services, i); s.offset + s.limit <= devices
  {
    PadIsRemainder(devices, services);
    var b := BatchSize(devices, services);
    if i + 1 < services {
      Ordered(b, i, services);
    }
  }

  lemma SlicesApart(devices: nat, services: nat, d: nat, i: nat, j: nat)
    requires devices >= services + 1 && i < j < services
    ensures PadModulus(devices, services) != 0
    ensures !(In(d, SliceOf(devices, services, i)) && In(d, SliceOf(devices, services, j)))
  {
    ModulusIsZeroIff(devices, services);
    Ordered(BatchSize(devices, services), i, j);
  }

  /** Every device past the master's share is in some slice. */
  lemma SliceFound(devices: nat, services: nat, d: nat) returns (i: nat)
    requires devices >= services + 1 && PadModulus(devices, services) != 0
    requires MasterShare(devices, services) <= d < devices
    ensures i < services && In(d, SliceOf(devices, services, i))
  {
    PadIsRemainder(devices, services);
    var b, past := BatchSize(devices, services), d - MasterShare(devices, services);
    i := past / b;
    Quotient(past, b);
    if i > services {
      Ordered(b, services, i);
    }
  }

  /**
   Every device is run by exactly one node: by the master iff below its share, else by exactly one
   secondary; and nothing outside the simulation is run by anyone.
   */
  lemma ExactTiling(devices: nat, services: nat, d: nat)
    requires devices >= services + 1
    ensures PadModulus(devices, services) != 0
    ensures var slices := RemoteSlices(devices, services); var share := MasterShare(devices, services);
      && (forall i, j | 0 <= i < j < services :: !(In(d, slices[i]) && In(d, slices[j])))
      && (forall i | 0 <= i < services :: In(d, slices[i]) ==> share <= d < devices)
      && (share <= d < devices ==> exists i | 0 <= i < services :: In(d, slices[i]))
      && share <= devices
  {
    PadIsRemainder(devices, services);
    var share, slices := MasterShare(devices, services), RemoteSlices(devices, services);
    forall i, j | 0 <= i < j < services ensures !(In(d, slices[i]) && In(d, slices[j])) {
      SlicesApart(devices, services, d, i, j);
    }
    forall i | 0 <= i < services ensures In(d, slices[i]) ==> share <= d < devices {
      MinNeverTrims(devices, services, i);
    }
    if share <= d < devices {
      var i := SliceFound(devices, services, d);
      assert In(d, slices[i]);
    }
  }

  /** The receiver's guard in RESTAPI_operation_handler::DoPost. */
  predicate Accepts(s: Slice)
  {
    s.offset != 0 && s.limit != 0 && s.index != 0
  }

  /**
   Each slice passes the receiver's guard against zero offset, limit and index, and the indices are the
   master's status slots 1, 2, ... in order.
   */
  lemma SlicesAreAccepted(devices: nat, services: nat, i: nat)
    requires devices >= services + 1 && i < services
    ensures PadModulus(devices, services) != 0
    ensures var s := RemoteSlices(devices, services)[i];
      Accepts(s) && s.index == i + 1 < services + 1
  {
    PadIsRemainder(devices, services);
  }
}
