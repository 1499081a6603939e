/** Helpers of the guest (server) API inputs: the bare-metal list filter and two name fallbacks. */
module Guests {
  import opened Wrappers

  /** The hypervisor of bare-metal servers. */
  const HypervisorBaremetal := "baremetal"

  /** The parts of a server list request that `AfterUnmarshal` reads and writes. */
  class ServerListInput {
    var baremetal: Option<bool>
    var hypervisor: seq<string>

    constructor(baremetal: Option<bool>, hypervisor: seq<string>)
      ensures this.baremetal == baremetal && this.hypervisor == hypervisor
    {
      this.baremetal := baremetal;
      this.hypervisor := hypervisor;
    }

    /** `ServerListInput.AfterUnmarshal`: asking for bare metal adds its hypervisor to the filter. */
    method AfterUnmarshal()
      modifies this
      ensures baremetal == old(baremetal)
      ensures hypervisor == if old(baremetal) == Some(true) then old(hypervisor) + [HypervisorBaremetal] else old(hypervisor)
    {
      if baremetal.Some? && baremetal.value {
        hypervisor := hypervisor + [HypervisorBaremetal];
      }
    }
  }

  /** How often `h` occurs in `s`. */
  function Occurrences(s: seq<string>, h: string): nat {
    if s == [] then 0 else Occurrences(s[..|s| - 1], h) + (if s[|s| - 1] == h then 1 else 0)
  }

  /**
   * The filter after `AfterUnmarshal` keeps the old one as a prefix and has bare metal once
   * more than before exactly when bare metal was asked for; nothing is de-duplicated, so a filter
   * that named bare metal already names it twice.
   */
  lemma {:induction false} BaremetalAppendedOnce(filter: seq<string>, baremetal: Option<bool>)
    ensures var r := if baremetal == Some(true) then filter + [HypervisorBaremetal] else filter;
      filter <= r &&
      Occurrences(r, HypervisorBaremetal) == Occurrences(filter, HypervisorBaremetal) + (if baremetal == Some(true) then 1 else 0)
  {
    if baremetal == Some(true) {
      var r := filter + [HypervisorBaremetal];
      assert r[..|r| - 1] == filter;
    }
  }

  /** The image and key-pair fields of a rebuild-root request. */
  datatype ServerRebuildRootInput = ServerRebuildRootInput(image: string, imageId: string, keypair: string, keypairId: string)

  /** The first of two names that is not empty, or "" when both are. */
  function FirstNonEmpty(primary: string, fallback: string): (r: string)
    ensures r == [] <==> primary == [] && fallback == []
    ensures primary != [] ==> r == primary
    ensures primary == [] ==> r == fallback
  {
    if |primary| > 0 then primary
    else if |fallback| > 0 then fallback
    else []
  }

  /** `GetImageName`: the image name, else the image id, else "". */
  function GetImageName(i: ServerRebuildRootInput): (r: string)
    ensures r == [] <==> i.image == [] && i.imageId == []
    ensures r == if i.image != [] then i.image else i.imageId
  {
    FirstNonEmpty(i.image, i.imageId)
  }

  /** `GetKeypairName`: the key pair name, else the key pair id, else "". */
  function GetKeypairName(i: ServerRebuildRootInput): (r: string)
    ensures r == [] <==> i.keypair == [] && i.keypairId == []
    ensures r == if i.keypair != [] then i.keypair else i.keypairId
  {
    FirstNonEmpty(i.keypair, i.keypairId)
  }
}
