/** The scaler as the imperative code that runs against the API server. */
module Scaler {
  import opened Wrappers
  import opened Decimal
  import opened Api
  import opened PersistenceScaling

  class PersistenceScaler {
    const client: Server

    constructor (client: Server)
      ensures this.client == client
    {
      this.client := client;
    }

    method ReadClusterPvcs(cluster: string, n: int) returns (pvcs: Option<seq<Claim>>)
      modifies client
      ensures (client.View(), pvcs) == GetClusterPvcs(old(client.View()), client.o, cluster, 0, n, [])
    {
      var found := [];
      var i: nat := 0;
      while i < n
        invariant GetClusterPvcs(old(client.View()), client.o, cluster, 0, n, []) ==
                  GetClusterPvcs(client.View(), client.o, cluster, i, n, found)
        decreases n - i
      {
        var v := client.Call();
        if v != Done {
          return None;
        }
        var name := PvcName(cluster, i);
        if name in client.pvcs {
          found := found + [Claim(name, client.pvcs[name])];
        }
        i := i + 1;
      }
      return Some(found);
    }

    method PvcsNeedingScaling(existing: seq<Claim>, desired: int) returns (pvcs: seq<Claim>)
      ensures pvcs == NeedingScaling(existing, desired)
    {
      pvcs := [];
      for i := 0 to |existing|
        invariant pvcs == NeedingScaling(existing[..i], desired)
      {
        assert existing[..i + 1][..i] == existing[..i];
        if existing[i].request < desired {
          pvcs := pvcs + [existing[i]];
        }
      }
      assert existing[..|existing|] == existing;
    }

    method RetryUntilAbsent(retries: nat) returns (r: Status)
      modifies client
      ensures (client.View(), r) == AwaitAbsent(old(client.View()), client.o, retries)
    {
      var k := retries;
      while k > 0
        invariant AwaitAbsent(old(client.View()), client.o, retries) == AwaitAbsent(client.View(), client.o, k)
      {
        var v := client.Call();
        if v == Done && client.sts.Absent? {
          client.log := client.log + [SawAbsent];
          return None;
        }
        k := k - 1;
      }
      return Some(StsNotDeleted);
    }

    method DeleteStatefulSet() returns (r: Status)
      modifies client
      ensures (client.View(), r) == DeleteSts(old(client.View()), client.o)
    {
      var v := client.Call();
      if v != Done {
        return Some(StsUnreadable);
      }
      if client.sts.Absent? {
        client.log := client.log + [SawAbsent];
        return None;
      }
      v := client.Call();
      if client.sts.Absent? {
        return Some(StsNotDeleted);
      }
      if TookEffect(v) {
        client.sts := client.sts.(terminating := true);
        client.log := client.log + [DeleteSent];
      }
      if v != Done {
        return Some(StsNotDeleted);
      }
      r := RetryUntilAbsent(DELETE_POLLS);
    }

    method ResizePvcs(claims: seq<Claim>, desired: int) returns (r: Status)
      modifies client
      ensures (client.View(), r) == ScaleUpPvcs(old(client.View()), client.o, claims, desired)
    {
      var i := 0;
      while i < |claims|
        invariant 0 <= i <= |claims|
        invariant ScaleUpPvcs(old(client.View()), client.o, claims, desired) ==
                  ScaleUpPvcs(client.View(), client.o, claims[i..], desired)
      {
        var name := claims[i].name;
        var v := client.Call();
        if v != Done || name !in client.pvcs {
          return Some(PvcUnreadable);
        }
        var request := client.pvcs[name];
        v := client.Call();
        if TookEffect(v) {
          client.pvcs := client.pvcs[name := desired];
          client.log := client.log + [Resized(name, request, desired)];
        }
        if v != Done {
          return Some(PvcNotUpdated);
        }
        i := i + 1;
        assert claims[i - 1..][1..] == claims[i..];
      }
      return None;
    }

    method ScaleCluster(cluster: string, replicas: Option<int>, desired: int) returns (r: Status)
      modifies client
      ensures (client.View(), r) == Scale(old(client.View()), client.o, cluster, replicas, desired)
    {
      var v := client.Call();
      if v != Done {
        return Some(StsUnreadable);
      }
      if client.sts.Present? {
        if client.sts.capacity == 0 && desired != 0 {
          return Some(EphemeralToPersistent);
        }
        if client.sts.capacity > desired {
          return Some(Shrinking);
        }
      }
      var existing := ReadClusterPvcs(cluster, PodCount(replicas));
      if existing.None? {
        return Some(PvcUnreadable);
      }
      var small := PvcsNeedingScaling(existing.value, desired);
      if |small| == 0 {
        return None;
      }
      r := DeleteStatefulSet();
      if r.None? {
        r := ResizePvcs(small, desired);
      }
    }
  }
}
