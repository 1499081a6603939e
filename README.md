# OneCloud list, scope and string rules in Dafny

This project models a group of small, self-contained rules from the OneCloud cloud-management
platform, states what each rule promises, and proves those promises.

- **Route tables** (`route_tables.dfy`, with `ipv4.dfy` for addresses and CIDRs):
  - validation of a route list, which rewrites each CIDR to its network and rejects duplicates;
  - the add-routes merge, which appends only CIDRs not already present;
  - the del-routes splice, which removes the last matching route that is not a `system` route;
  - the default name of an imported table;
  - the route copy made when a table is imported from a cloud;
  - the bookkeeping of a synchronisation pass.
- **Sharing scopes** (`sharable.dfy`):
  - `SetShare`;
  - scope normalisation when a sharable resource is created;
  - the owner filter of listings, as a row predicate;
  - the "may this requester use it" decision;
  - the candidate and required domains used by change-owner;
  - the scope chosen by the public and private actions.
- **HTTP client helpers** (`http_utils.dfy`):
  - error classification;
  - `GetAddrPort`;
  - `JoinPath`;
  - status bucketing of plain and JSON responses;
  - header replacement in a JSON request.
- **Monitor helpers** (`datasource.dfy`):
  - order-preserving union;
  - the tag-value merge of a measurement;
  - the InfluxQL time filter;
  - defaulting of the from/to query parameters;
  - the tag key and tag value filters.
- **API input conversions** (`disk.dfy`, `guests.dfy`):
  - the disk ⇄ server create-input round trip;
  - the bare-metal hypervisor filter;
  - the image and key-pair name fallbacks.

The shared modules are `wrappers.dfy` (Option and Result), `seqs.dfy` (the subsequence relation,
which states that the del-routes splice and the union keep order) and `strings.dfy`. The latter models the
Go `strings` and `strconv` functions the rules call: `Index`, `Contains`, `Replace(…, 1)`,
`TrimRight`/`TrimLeft` of one character, `Atoi` and `ParseInt(…, 10, 32)`.

Where the source mutates a value in place, the model is imperative:
- a Dafny class with `modifies` clauses: `RouteTable`, `SharableResource`, `JsonBaseRequest`,
  `InfluxMeasurement` and `ServerListInput`;
- methods with loops: the merge, the splice, the union, the header loop, the candidate merges and
  the three sync phases.

Each method is proved equal to a specification function. The properties are proved about that
function.

Code the model cannot see becomes a parameter. This covers:
- the comparison of local and cloud tables;
- the per-table database work of a sync;
- `db.GenerateName`;
- scope ordering (`HigherThan`) and the policy's allowed scope;
- `shareToTarget`;
- cleaning of old share records;
- JSON decoding and `GetString`;
- textproto header-key canonicalisation;
- `ValidateFromAndToValue`.

## Model

| member | source | states |
|---|---|---|
| RouteTables.ValidateRoute | pkg/compute/models/routetables.go:48-62 | an accepted route differs from the input at most in its CIDR |
| RouteTables.ValidateRouteCases | pkg/compute/models/routetables.go:49-61 | a CIDR with '/' past index 0 is accepted iff it parses as a network, and is then rewritten to the network's text. Any other CIDR is accepted iff it is an IPv4 address, and is then kept unchanged |
| RouteTables.ValidateRouteIdempotent | pkg/compute/models/routetables.go:49-55 | a validated route validates again to itself (the normalised CIDR is a fixed point) |
| Ipv4.CidrRoundTrip | pkg/compute/models/routetables.go:50-55 | printing a parsed network and parsing it again gives the same network |
| Ipv4.NormalizeIdempotent | pkg/compute/models/routetables.go:50-55 | normalising an already normalised CIDR changes nothing |
| Ipv4.IPv4RoundTrip | pkg/compute/models/routetables.go:57-60 | every four-octet address prints to text that parses back to it |
| Ipv4.ParseCidr | pkg/compute/models/routetables.go:50 | a parsed network has four octets, a prefix of at most 32, and no host bits set |
| Ipv4.MaskedTwice | pkg/compute/models/routetables.go:50-55 | clearing the host bits twice is the same as clearing them once |
| RouteTables.ValidateAll | pkg/compute/models/routetables.go:77-94 | the list is accepted iff every route passes its check and the normalised CIDRs are pairwise distinct; the accepted list is the normalised list |
| RouteTables.ValidateSnoc | pkg/compute/models/routetables.go:84-93 | one loop step: an earlier error stays; otherwise the route's own error, then a duplicate-CIDR error, then the normalised route appended |
| RouteTables.ValidateErrStays | pkg/compute/models/routetables.go:84-93 | once a prefix of the list is rejected, the whole list is rejected with the same error |
| RouteTables.ValidateRoutes | pkg/compute/models/routetables.go:77-94 | the loop with its `found` set returns exactly the result of ValidateAll |
| RouteTables.AllValidSnoc | pkg/compute/models/routetables.go:84-87 | a list plus one route is all-valid iff the list is and the route is |
| RouteTables.DistinctSnoc | pkg/compute/models/routetables.go:88-93 | a list plus one route has distinct CIDRs iff the list has them and the route's CIDR is new |
| RouteTables.Merged | pkg/compute/models/routetables.go:314-325 | the old routes are kept as a prefix; every added CIDR is present afterwards; only added routes are appended, at most one per add; distinct CIDRs stay distinct |
| RouteTables.MergedAllPresent | pkg/compute/models/routetables.go:314-325 | adds whose CIDRs are all present already change nothing |
| RouteTables.MergedIdempotent | pkg/compute/models/routetables.go:314-325 | adding the same routes a second time changes nothing |
| RouteTables.MergedStep | pkg/compute/models/routetables.go:314-325 | one outer step appends the add iff its CIDR is not yet in the list built so far, counting earlier adds of the same call |
| RouteTables.FindCidr | pkg/compute/models/routetables.go:315-321 | the inner search reports true iff some route in the list has the CIDR |
| RouteTables.MergeRoutes | pkg/compute/models/routetables.go:314-325 | the nested loop computes exactly Merged |
| RouteTables.LastDeletable | pkg/compute/models/routetables.go:350-358 | the index found is the last non-system route with the CIDR, or -1 when there is none |
| RouteTables.DeleteOne | pkg/compute/models/routetables.go:349-361 | with no deletable route the list is unchanged; otherwise exactly the last non-system route with the CIDR is cut out |
| RouteTables.Deleted | pkg/compute/models/routetables.go:349-361 | the list shrinks by at most one route per requested CIDR |
| RouteTables.DeletedStep | pkg/compute/models/routetables.go:349-361 | each requested CIDR is applied to the result of the earlier ones, in order |
| RouteTables.SpliceOne | pkg/compute/models/routetables.go:350-360 | the reverse loop with `continue` and `break` computes exactly DeleteOne |
| RouteTables.SpliceRoutes | pkg/compute/models/routetables.go:349-361 | the outer loop computes exactly Deleted |
| RouteTables.SystemsConcat | pkg/compute/models/routetables.go:352-354 | the system routes of a concatenation are those of each part, in order |
| RouteTables.SystemsRemoveAt | pkg/compute/models/routetables.go:356-358 | cutting out a non-system route leaves the system routes as they were |
| RouteTables.DeletedKeepsSystem | pkg/compute/models/routetables.go:349-361 | no `system` route is ever removed: the system routes, in order, are the same before and after |
| RouteTables.DeletedIsSubseq | pkg/compute/models/routetables.go:349-361 | the remaining routes are a subsequence of the original list, so their relative order is kept |
| Seqs.SubseqRemoveAt | pkg/compute/models/routetables.go:357 | a list with one element cut out is a subsequence of it |
| Seqs.SubseqTrans | pkg/compute/models/routetables.go:349-361 | the subsequence relation is transitive, so successive splices keep the order |
| RouteTables.RouteTable.PerformAddRoutes | pkg/compute/models/routetables.go:300-335 | a "routes" value that cannot be decoded is refused and leaves the routes unchanged; decoded routes that fail validation leave the routes unchanged and return the validation error; otherwise the routes become the merge of the old routes with the validated adds |
| RouteTables.RouteTable.PerformDelRoutes | pkg/compute/models/routetables.go:337-370 | a CIDR list that cannot be read is an error and changes nothing; otherwise the routes become the spliced list |
| RouteTables.RouteTableBasename | pkg/compute/models/routetables.go:495-503 | never empty; `name` when given, else "rtbl-" followed by the VPC name when that is given, else "rtbl" |
| RouteTables.RoutesFromCloud | pkg/compute/models/routetables.go:463-471 | one local route per cloud route, in the same order, with type, CIDR, next-hop type and next hop copied |
| RouteTables.NewRouteTableFromCloud | pkg/compute/models/routetables.go:456-493 | the table is built iff the cloud routes and a generated name are both available; it holds the copied routes, the type, the VPC, the external id, the description and the caller's project and domain |
| RouteTables.CountTrue | pkg/compute/models/routetables.go:421-428 | the successes never exceed the items, and they equal the items iff every item succeeded |
| RouteTables.Failures | pkg/compute/models/routetables.go:430-451 | the failures never exceed the outcomes, and there are none iff every outcome succeeded |
| RouteTables.Values | pkg/compute/models/routetables.go:430-451 | the successful results plus the failures account for every outcome exactly once |
| RouteTables.Chosen | pkg/compute/models/routetables.go:436-449 | one remote item is kept per successful result |
| RouteTables.ChosenAligned | pkg/compute/models/routetables.go:436-449 | the k-th kept remote item is the input of the k-th successful result |
| RouteTables.DeleteStepsSnoc | pkg/compute/models/routetables.go:421-428 | each delete-loop step adds one trace entry and counts one success or one error |
| RouteTables.UpdateStepsSnoc | pkg/compute/models/routetables.go:430-439 | each update-loop step adds one trace entry |
| RouteTables.AddStepsSnoc | pkg/compute/models/routetables.go:442-451 | each add-loop step adds one trace entry |
| RouteTables.DeletePhase | pkg/compute/models/routetables.go:421-428 | every removed table is counted exactly once, as a delete or a delete error |
| RouteTables.UpdatePhase | pkg/compute/models/routetables.go:430-439 | every common pair is counted exactly once, as an update or an update error; the successful pairs are appended to both lists in order |
| RouteTables.AddPhase | pkg/compute/models/routetables.go:442-451 | every added cloud table is counted exactly once, as an add or an add error; the successful imports are appended to both lists in order |
| RouteTables.SyncRouteTables | pkg/compute/models/routetables.go:399-453 | a failed fetch or comparison returns empty lists with the error flag set and handles no item. Otherwise every item is counted exactly once in its phase. The lists are the successful updates followed by the successful imports, and the trace runs the deletes, then the updates, then the adds |
| RouteTables.SyncListsAligned | pkg/compute/models/routetables.go:436-451 | the two returned lists have equal length; each local record stands beside the cloud table it was updated or imported from |
| RouteTables.SyncPhasesOrdered | pkg/compute/models/routetables.go:421-451 | all deletes come before all updates, and all updates before all adds |
| Sharable.String2ScopeDefault | pkg/cloudcommon/db/sharablebase.go:384 | the scope read from a text is the one whose name it is, or the default |
| Sharable.ScopeNameRoundTrip | pkg/cloudcommon/db/sharablebase.go:362-378 | the name a scope is stored as reads back as that scope |
| Sharable.ValidateCreateData | pkg/cloudcommon/db/sharablebase.go:148-194 | an empty public scope returns the input unchanged. A resource that is neither project- nor domain-scoped is not sharable. A scope the resource may be public to (system or domain for a project resource, system for a domain resource) is accepted, with the public flag set, iff that scope is not above the allowed one, and is otherwise refused for insufficient privilege at that scope. Any other scope is refused as unsupported when the request asked to be public; otherwise it becomes private "none", accepted iff the resource's own scope is not above the allowed one |
| Sharable.ValidateCreateDataIdempotent | pkg/cloudcommon/db/sharablebase.go:156-192 | validating an already validated input gives it back unchanged |
| Sharable.VisibleProjectRows | pkg/cloudcommon/db/sharablebase.go:199-226 | for project resources at project scope, a row is visible iff it is in the owner's project, system-public, domain-public in or shared to the owner's domain, or shared to the owner's project |
| Sharable.VisibleDomainRows | pkg/cloudcommon/db/sharablebase.go:227-245 | for domain resources at project or domain scope, and project resources at domain scope, a row is visible iff it is in the owner's domain, system-public, or public and shared to the owner's domain |
| Sharable.UnfilteredRows | pkg/cloudcommon/db/sharablebase.go:196-249 | no owner, an owner without the id its branch needs, or any other scope combination lets every row through |
| Sharable.VisibleToOwner | pkg/cloudcommon/db/sharablebase.go:196-249 | with no owner every row passes; a system-public row passes under every owner and every pair of scopes; a row of the owner's own project and domain always passes |
| Sharable.VisibleMonotone | pkg/cloudcommon/db/sharablebase.go:196-249 | adding records to the shared-resource table never hides a row that was visible |
| Sharable.PrivateRowHidden | pkg/cloudcommon/db/sharablebase.go:199-226 | a private row of another project that is not shared to the owner's project stays hidden |
| Sharable.SharableResource.SetShare | pkg/cloudcommon/db/sharablebase.go:362-370 | public iff the scope is not "none", the scope is recorded, and the source becomes "local" |
| Sharable.SharableResource.IsSharable | pkg/cloudcommon/db/sharablebase.go:328-360 | a system-public resource is sharable to everyone; a sharable resource is public or has project scope, and one not of project scope is public to the system or a domain |
| Sharable.SharableMonotone | pkg/cloudcommon/db/sharablebase.go:328-360 | adding records to the shared-resource table never takes away a use |
| Sharable.IsSharableMeaning | pkg/cloudcommon/db/sharablebase.go:328-360 | system-public gives true for everyone; domain-public gives true iff the owner's domain is the requester's or a domain share targets it; project scope gives true iff the owner's project is the requester's or a project share targets it; otherwise false |
| Sharable.SharableIsVisible | pkg/cloudcommon/db/sharablebase.go:199-226 | whatever a requester may use also passes the requester's project-scope listing filter |
| Sharable.VisibleNotSharable | pkg/cloudcommon/db/sharablebase.go:328-360 | the converse fails: every private resource with scope "none" is listed for its own project at project scope, yet IsSharable is false for that same project |
| Sharable.SharableResource.ChangeOwnerCandidateDomainIds | pkg/cloudcommon/db/sharablebase.go:275-290 | empty for a system-public resource. Otherwise the owner's domain comes last when there is one; a domain-public resource's shared domains come first; any other resource has at most the owner's domain; the length is the number of shared domains (domain-public only) plus one for the owner's domain |
| Sharable.CandidateDomainsMayUseIt | pkg/cloudcommon/db/sharablebase.go:275-290 | for a domain-public resource whose shared domains are recorded in the table, the resource is sharable to a requester in every candidate domain |
| Sharable.WithOwnerDomain | pkg/cloudcommon/db/sharablebase.go:296-300 | a candidate list plus the owner's domain when it has one, and nothing else |
| Sharable.MergedCandidates | pkg/cloudcommon/db/sharablebase.go:292-309 | the merged set lies within the last list plus the owner's domain when that list is non-empty, and is empty when every list is empty |
| Sharable.MergedCandidatesWithinLast | pkg/cloudcommon/db/sharablebase.go:292-309 | the merged set lies within the last non-empty list plus the owner's domain, whatever empty lists follow it |
| Sharable.MergeChangeOwnerCandidateDomainIds | pkg/cloudcommon/db/sharablebase.go:292-309 | the loop computes exactly MergedCandidates, restart included |
| Sharable.MergedCandidatesRestarts | pkg/cloudcommon/db/sharablebase.go:301-305 | three disjoint lists merge to the last list alone, not to their empty intersection |
| Sharable.Intersected | pkg/cloudcommon/db/sharablebase.go:292-309 | no constraint results exactly when every list is empty |
| Sharable.IntersectedCandidatesMeaning | pkg/cloudcommon/db/sharablebase.go:292-309 | the intended merge: a domain is a candidate iff every non-empty list, extended by the owner's domain, contains it |
| Sharable.MergedCandidatesWithOwnerDomain | pkg/cloudcommon/db/sharablebase.go:292-309 | when the owner has a domain the running intersection never empties, so the code as written gives the intended set, owner's domain included |
| Sharable.MergedRequires | pkg/cloudcommon/db/sharablebase.go:311-326 | nil iff there are no lists or some list is empty; otherwise the union of all lists |
| Sharable.MergeShareRequireDomainIds | pkg/cloudcommon/db/sharablebase.go:311-326 | the loop with its early return computes exactly MergedRequires |
| Sharable.TargetScope | pkg/cloudcommon/db/sharablebase.go:384-395 | project when projects are listed, domain when only domains are, else the requested scope (system by default) |
| Sharable.PublicScopeDecision | pkg/cloudcommon/db/sharablebase.go:383-452 | a requested scope below the resource's own is unsupported; both projects and domains is an input error. An accepted scope is the target scope or "none", and stays within the allowed scope. Project target needs exactly one required domain; domain target needs some required domain and both table updates to succeed; system target needs no candidates and both cleans to succeed. "none" results only from a "none" request, a project share that ends empty, or a domain resource's domain share that ends empty. After the two pre-checks each refusal gives its own error: no required domain for a project or domain target requires system, more than one for a project target requires another domain, candidate domains for a system target limit it to domains, and each failed share or clean is a failed share. A privilege refusal names the target scope (or "none") and the allowed scope, which it exceeds |
| Sharable.PublicToProjects | pkg/cloudcommon/db/sharablebase.go:404-452 | projects of which some end up shared give project scope, or a privilege refusal when project scope is above the allowed one |
| Sharable.PublicToDomains | pkg/cloudcommon/db/sharablebase.go:420-452 | domains with a required domain and both updates succeeding give domain scope (unless a domain resource ends up shared to no domain), or a privilege refusal above the allowed scope |
| Sharable.PublicToSystem | pkg/cloudcommon/db/sharablebase.go:435-452 | a system request with no candidate domains and both cleans succeeding gives system scope, or a privilege refusal when system is above the allowed scope |
| Sharable.PublicToOther | pkg/cloudcommon/db/sharablebase.go:403-452 | a target other than project, domain and system shares nothing and gives that scope, or a privilege refusal when it is above the allowed one |
| Sharable.PublicToNoProjectIsPrivate | pkg/cloudcommon/db/sharablebase.go:413-419 | sharing to projects none of which ends up shared sets the scope to "none" |
| Sharable.SharableResource.PerformPublic | pkg/cloudcommon/db/sharablebase.go:380-470 | on success the resource takes the decided scope: public iff it is not "none", its public scope stored as that scope's name, source "local"; on refusal it is unchanged and the error is returned |
| Sharable.PrivateDecision | pkg/cloudcommon/db/sharablebase.go:472-510 | nothing is needed exactly when the resource is already private with scope "none". Otherwise no required domain is refused as requiring system, more than one as requiring another domain, a current scope above the allowed one for insufficient privilege, and a failed clean as a failed share; when all pass it becomes "none" |
| Sharable.SharableResource.PerformPrivate | pkg/cloudcommon/db/sharablebase.go:472-510 | the resource becomes private, with its public scope stored as "none" and source "local", exactly when PrivateDecision says so, and is otherwise unchanged |
| HttpUtils.ErrorCause | pkg/util/httputils/httputils.go:174-184 | a non-empty class wins; otherwise ≥ 500 is a server error, 400–499 a client error, anything else unclassified |
| HttpUtils.ErrorCode | pkg/util/httputils/httputils.go:186-195 | 0 for no error, the code of a client error, -1 for any other error |
| HttpUtils.ErrorMsg | pkg/util/httputils/httputils.go:197-206 | "" for no error, the details of a client error, the message of any other error |
| HttpUtils.ParseErrorFromJsonResponse | pkg/util/httputils/httputils.go:151-163 | a body that does not decode is an error; a decoded error is nil iff code, class and details are all empty; otherwise a zero code is replaced by the status |
| HttpUtils.ParsedErrorHasCode | pkg/util/httputils/httputils.go:157-162 | with a non-zero status, a reported error always has a non-zero code |
| HttpUtils.GetAddrPort | pkg/util/httputils/httputils.go:208-232 | a host with ':' past index 0 gives the text before it and its 32-bit decimal port, or an error when that is not a number; otherwise port 80 for http, 443 for https, and an error for any other scheme |
| HttpUtils.AddrPortRoundTrip | pkg/util/httputils/httputils.go:213-221 | a host without ':' joined to a decimal port splits back into that host and port |
| HttpUtils.JoinPathOneSlash | pkg/util/httputils/httputils.go:814-816 | the result is the endpoint without trailing '/', exactly one '/', then the path without leading '/' |
| HttpUtils.JoinPathExtraSlashes | pkg/util/httputils/httputils.go:814-816 | extra slashes at the joint do not change the result |
| HttpUtils.ParseResponse | pkg/util/httputils/httputils.go:563-605 | a transport error gives code 499; a read error is a plain error; below 300 is success with the body; 300–399 is a "redirect" error with the Location; 400 and above carry the status and the body, or the status text for an empty body |
| HttpUtils.ParseResponseCause | pkg/util/httputils/httputils.go:563-605 | each status bucket's error classifies as that bucket: redirect, client or server |
| HttpUtils.GetAnyString | pkg/util/httputils/httputils.go:698-703 | empty iff every key is empty; otherwise the value of the first key that has one |
| HttpUtils.JsonBody | pkg/util/httputils/httputils.go:634-642 | a body not starting with '{' is not parsed |
| HttpUtils.ParseJSONResponse | pkg/util/httputils/httputils.go:607-706 | the same transport, read and redirect cases as ParseResponse; below 300 the body is returned as JSON. From 400 up: a non-JSON body gives the status with the body or status text; a decoded error with class, code ≥ 400 and details is returned as it is; otherwise a numeric "code" sets the code and any other the class, a zero code becomes the status, and the first detail and class keys override; an empty object dereferences nil |
| HttpUtils.Inner | pkg/util/httputils/httputils.go:679-686 | a one-member object stands for its member's value; any other object for itself |
| HttpUtils.Replaced | pkg/util/httputils/httputils.go:131-134 | the key ends up with exactly the given values, or is absent when there are none; every other key is untouched |
| HttpUtils.ReplacedAllMeaning | pkg/util/httputils/httputils.go:129-136 | every canonical key of the argument ends with exactly its values, in order; keys absent from the argument are untouched |
| HttpUtils.DelAdd | pkg/util/httputils/httputils.go:131-134 | the delete-then-add loop computes exactly Replaced |
| HttpUtils.JsonBaseRequest.constructor | pkg/util/httputils/httputils.go:138-145 | a new request has the method, the URL and only the JSON content type header |
| HttpUtils.JsonBaseRequest.SetHeader | pkg/util/httputils/httputils.go:129-136 | the header becomes the old header with every argument key replaced; method and URL are unchanged |
| Datasource.Missing | pkg/monitor/models/datasource.go:484-489 | the appended elements are those of the second list not in the first, in order |
| Datasource.Union | pkg/monitor/models/datasource.go:478-491 | the first list is a prefix; every element of the second list occurs; nothing else occurs |
| Datasource.MissingIsSubseq | pkg/monitor/models/datasource.go:484-489 | the appended elements keep the order they have in the second list |
| Datasource.MissingCount | pkg/monitor/models/datasource.go:484-489 | an element missing from the first list is appended once per occurrence in the second |
| Datasource.UnionCount | pkg/monitor/models/datasource.go:478-491 | the occurrences of a value in the union are those in the first list, plus those in the second when the first has none |
| Datasource.UnionTwice | pkg/monitor/models/datasource.go:478-491 | a second union with the same list changes nothing |
| Datasource.UnionOf | pkg/monitor/models/datasource.go:478-491 | the loop with its count map computes exactly Union |
| Datasource.TagValUnioned | pkg/monitor/models/datasource.go:466-476 | the tags afterwards are the old ones plus the listed tags present in the new values |
| Datasource.TagValUnionedMeaning | pkg/monitor/models/datasource.go:466-476 | only tags both listed and present in the new values change; such a tag with no values takes the new list, otherwise the union of old and new |
| Datasource.InfluxMeasurement.TagValUnion | pkg/monitor/models/datasource.go:466-476 | the measurement's tag values become TagValUnioned of the old values |
| Datasource.RenderTimeFilter | pkg/monitor/models/datasource.go:383-397 | always starts with "time > now() - " and the first "now-" removed from `from`; the upper bound is added iff `to` is neither "now" nor "" |
| Datasource.RenderRelativeRange | pkg/monitor/models/datasource.go:383-397 | "now-a" to "now-b" renders as the range between a and b ago |
| Datasource.FromAndTo | pkg/monitor/models/datasource.go:282-303 | missing values default to "6h" and "now"; the result is an error iff the validator refuses the defaulted pair |
| Datasource.FromKeyIgnored | pkg/monitor/models/datasource.go:284 | a query giving "from" still gets the default "6h", because the code reads "form" |
| Datasource.FromKeyHonoured | pkg/monitor/models/datasource.go:284-287 | reading the key "from", a given value is used |
| Datasource.NoUnderscoreKey | pkg/monitor/models/datasource.go:671-681 | a key without "_id" is filtered iff it is one of the six listed names |
| Datasource.ShownTagsNotFiltered | pkg/monitor/models/datasource.go:52 | no tag key in the shown list is filtered |
| Datasource.UuidFrom | pkg/monitor/models/datasource.go:51 | the first position at or after i where the id pattern matches, or none when it matches nowhere |
| Datasource.FilterTagValue | pkg/monitor/models/datasource.go:683-688 | true iff the id pattern matches somewhere in the value |
| Datasource.EmbeddedIdFiltered | pkg/monitor/models/datasource.go:683-688 | a value with an id anywhere inside it is filtered |
| Datasource.ShortValueKept | pkg/monitor/models/datasource.go:683-688 | a value shorter than 36 characters is never filtered |
| Disk.ToServerCreateInput | pkg/apis/compute/disk.go:48-67 | exactly one disk, the request's; prefer fields, hypervisor, name, project, project id, domain and domain id are copied |
| Disk.ToDiskCreateInput | pkg/apis/compute/disk.go:69-82 | the first disk, prefer fields, hypervisor, name, project and domain copied; project id and domain id left empty |
| Disk.DiskRoundTrip | pkg/apis/compute/disk.go:48-82 | disk to server to disk keeps every field except project id and domain id, which become empty |
| Disk.DiskRoundTripExact | pkg/apis/compute/disk.go:48-82 | the round trip is the identity iff project id and domain id were already empty |
| Disk.ServerRoundTrip | pkg/apis/compute/disk.go:48-82 | server to disk to server keeps only the first disk and clears project id and domain id |
| Guests.ServerListInput.AfterUnmarshal | pkg/apis/compute/guests.go:112-116 | "baremetal" is appended to the hypervisors iff the bare-metal flag is set and true; otherwise they are unchanged |
| Guests.BaremetalAppendedOnce | pkg/apis/compute/guests.go:112-116 | the append adds exactly one occurrence and keeps the old list as a prefix, so an existing entry appears twice |
| Guests.FirstNonEmpty | pkg/apis/compute/guests.go:134-152 | the first argument when non-empty, else the second; empty iff both are |
| Guests.GetImageName | pkg/apis/compute/guests.go:134-142 | the image when given, else the image id; empty iff both are |
| Guests.GetKeypairName | pkg/apis/compute/guests.go:144-152 | the key pair when given, else the key-pair id; empty iff both are |
| Strings.IndexOf | pkg/compute/models/routetables.go:49 | the first position where the pattern occurs, or -1 iff it occurs nowhere |
| Strings.RemoveFirst | pkg/monitor/models/datasource.go:384-386 | a text without the pattern is kept; otherwise the first occurrence of the pattern is cut out, the text before and after it kept |
| Strings.RemoveFirstOfPrefixed | pkg/monitor/models/datasource.go:384-386 | removing the first "now-" from "now-" + d gives d |
| Strings.TrimRight | pkg/util/httputils/httputils.go:815 | the longest prefix not ending in the character, with only that character removed |
| Strings.TrimLeft | pkg/util/httputils/httputils.go:815 | the longest suffix not starting with the character, with only that character removed |
| Strings.ParseDecimal | pkg/util/httputils/httputils.go:215-219 | a decimal numeral below the bound parses to its value |
| Strings.ParseRejectsNonDigit | pkg/util/httputils/httputils.go:215-219 | a text with a non-digit after its sign does not parse |

## Left out

- IPv6: the model parses only dotted-quad IPv4 text, as Go 1.17 and later do, rejecting leading zeros in an octet. IPv6 addresses, IPv4-mapped IPv6 forms and non-canonical masks are not modelled.
- RouteTables.ValidateAll: the route check rewrites each CIDR in place. The model returns a new list instead, so a caller's list left half-normalised by an error is not modelled.
- The nil-receiver branch of the route-list check (pkg/compute/models/routetables.go:78-79), which dereferences nil.
- `db.Update`, locks, operation and action logs, and metadata sync. The database work of a sync (remove, update, import) is a parameter that succeeds or fails.
- `compare.CompareSets` is not part of this model: its four partitions, or its failure, are an input to the sync pass.
- RouteTables.NewRouteTableFromCloud: `db.GenerateName` and the cloud getters are parameters.
- The scope names "system", "domain", "project", "user" and "none", and the mapping of unknown text to the default, are assumed; rbacutils is not part of this model.
- Scope ordering and the policy's allowed scope are parameters.
- Sharable.SharableResource.PerformPublic: `shareToTarget`'s effect on the shared-resource table is not modelled, only its failure. The same holds for the cleaning of old shares in PerformPrivate.
- Sharable.MergedCandidates: stringutils2's sorted string sets become `set<string>`, so their order is not modelled.
- SharableModelCustomizeCreate, SharableGetSharedProjects, SharableModelIsShared, the list and column functions, and the query building of the owner filter are not modelled. The owner filter is stated as a row predicate.
- HttpUtils.ParseJSONResponse: JSON decoding, `Unmarshal` and `GetString` are parameters. A response whose error body is an empty object panics in the source (a nil dereference); the model returns a distinguished error for it.
- HttpUtils.JsonBaseRequest.SetHeader: textproto canonicalisation is a parameter. Go's map iteration order is a parameter too; ReplacedAllMeaning holds for any order when canonicalisation does not merge two argument keys.
- HttpUtils.GetAddrPort: `url.Parse` is not part of this model; its result is the input.
- Transport, dialing, `Request`, `JsonClient.Send`, the JSON request helpers, debug dumps and `ParseJSONResponseUseBufio`.
- InfluxDB queries, goroutines, channels, subscriptions and `ValidateFromAndToValue`, which is a parameter.
- Datasource.FilterTagValue: `\w` is taken as ASCII letters, digits and '_', as Go's RE2 defines it.
- Guests.ServerListInput.AfterUnmarshal: the value "baremetal" of the bare-metal hypervisor constant is assumed.
- Disk.ToServerCreateInput: the other fields of the server create input are not modelled.
- The CLI shells, constants, DTOs and cron wiring of the surrounding repository.

## Findings

| source | as written | input that shows it | evidently intended | confidence | as-written member | corrected member |
|---|---|---|---|---|---|---|
| pkg/cloudcommon/db/sharablebase.go:301-305 | a running intersection that has become empty is restarted from the next non-empty candidate list | candidate lists ["a"], ["b"], ["c"] with no owner domain give {"c"} | the intersection of all non-empty lists, here {} | not executed | Sharable.MergedCandidatesRestarts | Sharable.IntersectedCandidatesMeaning |
| pkg/monitor/models/datasource.go:284 | the start of the range is read from the key "form" | query {"from": "1h"} gives from = "6h" | read the key "from", giving "1h" | not executed | Datasource.FromKeyIgnored | Datasource.FromKeyHonoured |
