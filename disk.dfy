/**
 * The conversion between a disk-create request and the server-create request the scheduler
 * places it with. The disk configuration is carried over as a whole; its own fields play no
 * part here, so it is a type parameter, and a nil configuration is None.
 */
module Disk {
  import opened Wrappers

  /** A disk-create request: the owner fields of a virtual resource, the disk and where to put it. */
  datatype DiskCreateInput<D> = DiskCreateInput(
    name: string, project: string, projectId: string, domain: string, domainId: string,
    diskConfig: Option<D>,
    preferRegion: string, preferZone: string, preferWire: string, preferHost: string,
    hypervisor: string)

  /** The fields of a server-create request that the conversions read or write. */
  datatype ServerCreateInput<D> = ServerCreateInput(
    name: string, project: string, projectId: string, domain: string, domainId: string,
    preferRegion: string, preferZone: string, preferWire: string, preferHost: string,
    hypervisor: string, disks: seq<Option<D>>)

  /**
   * `DiskCreateInput.ToServerCreateInput`: a server request with the disk as its one disk, the
   * same placement preferences and hypervisor, and the same name, project and domain (by name
   * and by id).
   */
  function ToServerCreateInput<D>(req: DiskCreateInput<D>): (r: ServerCreateInput<D>)
    ensures r.disks == [req.diskConfig]
    ensures r.preferRegion == req.preferRegion && r.preferZone == req.preferZone &&
            r.preferWire == req.preferWire && r.preferHost == req.preferHost && r.hypervisor == req.hypervisor
    ensures r.name == req.name && r.project == req.project && r.projectId == req.projectId &&
            r.domain == req.domain && r.domainId == req.domainId
  {
    ServerCreateInput(req.name, req.project, req.projectId, req.domain, req.domainId,
      req.preferRegion, req.preferZone, req.preferWire, req.preferHost, req.hypervisor, [req.diskConfig])
  }

  /**
   * `ServerCreateInput.ToDiskCreateInput`: the first disk of the server request, its placement
   * preferences and hypervisor, and its name, project and domain names; the project and domain
   * ids are not copied. The code indexes the first disk, so the server request must have one.
   */
  function ToDiskCreateInput<D>(req: ServerCreateInput<D>): (r: DiskCreateInput<D>)
    requires |req.disks| > 0
    ensures r.diskConfig == req.disks[0]
    ensures r.preferRegion == req.preferRegion && r.preferZone == req.preferZone &&
            r.preferWire == req.preferWire && r.preferHost == req.preferHost && r.hypervisor == req.hypervisor
    ensures r.name == req.name && r.project == req.project && r.domain == req.domain
    ensures r.projectId == [] && r.domainId == []
  {
    DiskCreateInput(req.name, req.project, [], req.domain, [], req.disks[0],
      req.preferRegion, req.preferZone, req.preferWire, req.preferHost, req.hypervisor)
  }

  /**
   * A disk request sent through a server request and back keeps everything but its project
   * and domain ids, which come back empty.
   */
  lemma DiskRoundTrip<D>(req: DiskCreateInput<D>)
    ensures ToDiskCreateInput(ToServerCreateInput(req)) == req.(projectId := [], domainId := [])
  {
  }

  /** A disk request survives the round trip unchanged exactly when it has no project or domain id. */
  lemma DiskRoundTripExact<D>(req: DiskCreateInput<D>)
    ensures ToDiskCreateInput(ToServerCreateInput(req)) == req <==> req.projectId == [] && req.domainId == []
  {
    DiskRoundTrip(req);
  }

  /**
   * A server request with one disk sent through a disk request and back keeps everything but
   * its project and domain ids; further disks are lost.
   */
  lemma ServerRoundTrip<D>(req: ServerCreateInput<D>)
    requires |req.disks| > 0
    ensures ToServerCreateInput(ToDiskCreateInput(req)) == req.(projectId := [], domainId := [], disks := req.disks[..1])
  {
  }
}
