/**
 * Sharing of resources across projects and domains: the public flag and public scope of a
 * resource, their normalisation on create, the owner filter of listings, the "may this requester
 * use it" decision, the candidate domains of a change of owner, and the scope chosen when a
 * resource is made public or private again.
 *
 * The shared-resource table is a finite set of records. The policy's allowed scope is a
 * parameter, and so is the scope order `higher`, which stands for `TRbacScope.HigherThan`.
 */
module Sharable {
  import opened Wrappers

  /** An access scope. */
  datatype Scope = ScopeSystem | ScopeDomain | ScopeProject | ScopeUser | ScopeNone

  /** The text a scope is stored as. */
  function ScopeName(s: Scope): string {
    match s
    case ScopeSystem => "system"
    case ScopeDomain => "domain"
    case ScopeProject => "project"
    case ScopeUser => "user"
    case ScopeNone => "none"
  }

  /** The scope a stored text names, or `def` for a text that names none. */
  function String2ScopeDefault(str: string, def: Scope): (s: Scope)
    ensures str == ScopeName(s) || s == def
  {
    if str == "system" then ScopeSystem
    else if str == "domain" then ScopeDomain
    else if str == "project" then ScopeProject
    else if str == "user" then ScopeUser
    else if str == "none" then ScopeNone
    else def
  }

  /** The scope a stored public scope names. */
  function String2Scope(str: string): Scope {
    String2ScopeDefault(str, ScopeNone)
  }

  /** A scope read back from its own name is the same scope. */
  lemma ScopeNameRoundTrip(s: Scope, def: Scope)
    ensures String2ScopeDefault(ScopeName(s), def) == s
  {
  }

  /** Where a sharing setting came from; a setting made here is "local". */
  const OwnerSourceLocal := "local"

  /** Who owns a resource, or who is asking: a project and the domain it belongs to. */
  datatype Owner = Owner(projectId: string, domainId: string)

  /** What a shared-resource record shares to. */
  datatype TargetType = TargetProject | TargetDomain

  /** One row of the shared-resource table. */
  datatype SharedRecord = SharedRecord(resourceId: string, resourceType: string, targetId: string, targetType: TargetType)

  /** The table holds a record sharing this resource to that target. */
  predicate SharedTo(shared: set<SharedRecord>, id: string, keyword: string, target: string, tt: TargetType) {
    SharedRecord(id, keyword, target, tt) in shared
  }

  /** Why a sharing operation was refused. */
  datatype ShareError =
    | NotSupported
    | NotSharable
    | InputParameter
    | NotSufficientPrivilege(require: Scope, allow: Scope)
    | RequireSystem
    | RequireOtherDomain
    | LimitedToDomains
    | ShareFailed

  // ----- normalisation on create -----

  /** The sharing part of a create request. */
  datatype CreateInput = CreateInput(isPublic: Option<bool>, publicScope: string)

  /**
   * The sharing part of a create request, checked against the resource's own scope and the
   * scope the policy allows. An empty public scope is left as it is. A project resource may be
   * made public to "system" or "domain"; a domain resource only to "system"; anything else
   * becomes private with scope "none", unless it asked to be public, which is refused.
   * Resources of any other scope cannot be shared.
   */
  /** A resource of scope `resScope` may be created public to the scope `publicScope` names. */
  predicate MayBePublicTo(resScope: Scope, publicScope: string) {
    (resScope == ScopeProject && (publicScope == "system" || publicScope == "domain")) ||
    (resScope == ScopeDomain && publicScope == "system")
  }

  function ValidateCreateData(input: CreateInput, resScope: Scope, allow: Scope, higher: (Scope, Scope) -> bool)
    : (r: Result<CreateInput, ShareError>)
    ensures input.publicScope == [] ==> r == Ok(input)
    ensures input.publicScope != [] && r.Ok? ==>
      (r.value.publicScope in {"system", "domain"} && r.value.isPublic == Some(true)) ||
      (r.value.publicScope == "none" && r.value.isPublic.None?)
    ensures input.publicScope != [] && r.Ok? ==> r.value.publicScope == input.publicScope || r.value.publicScope == "none"
    ensures input.publicScope != [] && resScope == ScopeDomain && r.Ok? ==> r.value.publicScope != "domain"
    ensures input.publicScope != [] && resScope != ScopeProject && resScope != ScopeDomain ==> r == Err(NotSharable)
    ensures input.publicScope != [] && input.isPublic == Some(true) && r.Ok? ==> r.value.isPublic == Some(true)
    ensures input.publicScope != [] && MayBePublicTo(resScope, input.publicScope) ==>
      (r.Ok? <==> !higher(String2Scope(input.publicScope), allow)) &&
      (r.Ok? ==> r.value == input.(isPublic := Some(true))) &&
      (r.Err? ==> r.error == NotSufficientPrivilege(String2Scope(input.publicScope), allow))
    ensures input.publicScope != [] && (resScope == ScopeProject || resScope == ScopeDomain) &&
            !MayBePublicTo(resScope, input.publicScope) ==>
        (input.isPublic == Some(true) ==> r == Err(NotSupported)) &&
        (input.isPublic != Some(true) ==>
          (r.Ok? <==> !higher(resScope, allow)) &&
          (r.Ok? ==> r.value == CreateInput(None, "none")) &&
          (r.Err? ==> r.error == NotSufficientPrivilege(resScope, allow)))
  {
    if input.publicScope == [] then Ok(input)
    else
      var step: Result<(CreateInput, Scope), ShareError> :=
        match resScope
        case ScopeProject =>
          if input.publicScope == "system" then Ok((input.(isPublic := Some(true)), ScopeSystem))
          else if input.publicScope == "domain" then Ok((input.(isPublic := Some(true)), ScopeDomain))
          else if input.isPublic == Some(true) then Err(NotSupported)
          else Ok((CreateInput(None, "none"), resScope))
        case ScopeDomain =>
          if input.publicScope == "system" then Ok((input.(isPublic := Some(true)), ScopeSystem))
          else if input.isPublic == Some(true) then Err(NotSupported)
          else Ok((CreateInput(None, "none"), resScope))
        case _ => Err(NotSharable);
      match step
      case Err(e) => Err(e)
      case Ok((out, reqScope)) =>
        if higher(reqScope, allow) then Err(NotSufficientPrivilege(reqScope, allow)) else Ok(out)
  }

  /** Checking an accepted request again accepts it unchanged. */
  lemma ValidateCreateDataIdempotent(input: CreateInput, resScope: Scope, allow: Scope, higher: (Scope, Scope) -> bool)
    requires ValidateCreateData(input, resScope, allow, higher).Ok?
    ensures var out := ValidateCreateData(input, resScope, allow, higher).value;
      ValidateCreateData(out, resScope, allow, higher) == Ok(out)
  {
  }

  // ----- the owner filter of listings -----

  /** The sharing columns of one row of a listing. */
  datatype Row = Row(id: string, tenantId: string, domainId: string, isPublic: bool, publicScope: string)

  /**
   * Whether a row survives the owner filter of a listing for resources of kind `keyword`, whose
   * own scope is `resScope`, listed at scope `scope` by `owner` (None when no owner applies).
   */
  function VisibleToOwner(row: Row, keyword: string, shared: set<SharedRecord>, owner: Option<Owner>, resScope: Scope, scope: Scope)
    : (b: bool)
    ensures owner.None? ==> b
    ensures row.isPublic && row.publicScope == "system" ==> b
    ensures owner.Some? && row.tenantId == owner.value.projectId && row.domainId == owner.value.domainId ==> b
  {
    if owner.None? then true
    else
      var o := owner.value;
      if resScope == ScopeProject && scope == ScopeProject then
        o.projectId == [] ||
        row.tenantId == o.projectId ||
        (row.isPublic && row.publicScope == "system") ||
        (row.isPublic && row.publicScope == "domain" &&
          (row.domainId == o.domainId || SharedTo(shared, row.id, keyword, o.domainId, TargetDomain))) ||
        SharedTo(shared, row.id, keyword, o.projectId, TargetProject)
      else if (resScope == ScopeDomain && (scope == ScopeProject || scope == ScopeDomain)) ||
              (resScope == ScopeProject && scope == ScopeDomain) then
        o.domainId == [] ||
        row.domainId == o.domainId ||
        (row.isPublic && row.publicScope == "system") ||
        (row.isPublic && SharedTo(shared, row.id, keyword, o.domainId, TargetDomain))
      else true
  }

  /**
   * For project resources listed at project scope by an owner with a project, a row is visible
   * exactly when it belongs to the owner's project, is public to the whole system, is public to
   * a domain that is the owner's or is shared to it, or is shared to the owner's project.
   */
  lemma VisibleProjectRows(row: Row, keyword: string, shared: set<SharedRecord>, o: Owner)
    requires o.projectId != []
    ensures VisibleToOwner(row, keyword, shared, Some(o), ScopeProject, ScopeProject) <==>
      row.tenantId == o.projectId ||
      (row.isPublic && row.publicScope == "system") ||
      (row.isPublic && row.publicScope == "domain" &&
        (row.domainId == o.domainId || SharedRecord(row.id, keyword, o.domainId, TargetDomain) in shared)) ||
      SharedRecord(row.id, keyword, o.projectId, TargetProject) in shared
  {
  }

  /**
   * For domain resources listed at project or domain scope, and for project resources listed at
   * domain scope, by an owner with a domain, a row is visible exactly when it is in the owner's
   * domain, is public to the whole system, or is public and shared to the owner's domain.
   */
  lemma VisibleDomainRows(row: Row, keyword: string, shared: set<SharedRecord>, o: Owner, resScope: Scope, scope: Scope)
    requires o.domainId != []
    requires (resScope == ScopeDomain && (scope == ScopeProject || scope == ScopeDomain)) ||
             (resScope == ScopeProject && scope == ScopeDomain)
    ensures VisibleToOwner(row, keyword, shared, Some(o), resScope, scope) <==>
      row.domainId == o.domainId ||
      (row.isPublic && row.publicScope == "system") ||
      (row.isPublic && SharedRecord(row.id, keyword, o.domainId, TargetDomain) in shared)
  {
  }

  /**
   * The filter lets every row through when there is no owner, when the owner lacks the project
   * or domain its branch matches on, and for every other combination of scopes.
   */
  lemma UnfilteredRows(row: Row, keyword: string, shared: set<SharedRecord>, owner: Option<Owner>, resScope: Scope, scope: Scope)
    requires owner.None? ||
      (resScope == ScopeProject && scope == ScopeProject && owner.value.projectId == []) ||
      (((resScope == ScopeDomain && (scope == ScopeProject || scope == ScopeDomain)) ||
        (resScope == ScopeProject && scope == ScopeDomain)) && owner.value.domainId == []) ||
      resScope !in {ScopeProject, ScopeDomain} ||
      (resScope == ScopeDomain && scope !in {ScopeProject, ScopeDomain}) ||
      (resScope == ScopeProject && scope !in {ScopeProject, ScopeDomain})
    ensures VisibleToOwner(row, keyword, shared, owner, resScope, scope)
  {
  }

  /** A private row of another project that nothing is shared with stays hidden. */
  lemma PrivateRowHidden(row: Row, keyword: string, shared: set<SharedRecord>, o: Owner)
    requires o.projectId != [] && row.tenantId != o.projectId && !row.isPublic
    requires SharedRecord(row.id, keyword, o.projectId, TargetProject) !in shared
    ensures !VisibleToOwner(row, keyword, shared, Some(o), ScopeProject, ScopeProject)
  {
  }

  // ----- a sharable resource -----

  /** The sharing columns of a resource, which `SetShare` rewrites. */
  class SharableResource {
    const id: string
    const keyword: string
    const owner: Option<Owner>
    var isPublic: bool
    var publicScope: string
    var publicSrc: string

    constructor(id: string, keyword: string, owner: Option<Owner>, isPublic: bool, publicScope: string, publicSrc: string)
      ensures this.id == id && this.keyword == keyword && this.owner == owner
      ensures this.isPublic == isPublic && this.publicScope == publicScope && this.publicSrc == publicSrc
    {
      this.id := id;
      this.keyword := keyword;
      this.owner := owner;
      this.isPublic := isPublic;
      this.publicScope := publicScope;
      this.publicSrc := publicSrc;
    }

    /** The resource's public scope, read from its stored text. */
    function GetPublicScope(): Scope
      reads this
    {
      String2Scope(publicScope)
    }

    /** The row this resource shows in a listing. */
    function AsRow(): Row
      reads this
      requires owner.Some?
    {
      Row(id, owner.value.projectId, owner.value.domainId, isPublic, publicScope)
    }

    /** Sets the sharing scope: public unless it is "none", recorded as set here. */
    method SetShare(scope: Scope)
      modifies this
      ensures isPublic == (scope != ScopeNone)
      ensures publicScope == ScopeName(scope) && GetPublicScope() == scope
      ensures publicSrc == OwnerSourceLocal
    {
      isPublic := scope != ScopeNone;
      publicScope := ScopeName(scope);
      publicSrc := OwnerSourceLocal;
    }

    /**
     * Whether the resource may be used by `req`: public to the whole system; public to a domain
     * and owned in, or shared to, the requester's domain; or of project scope and owned by, or
     * shared to, the requester's project.
     */
    function IsSharable(req: Owner, shared: set<SharedRecord>): (b: bool)
      reads this
      ensures isPublic && GetPublicScope() == ScopeSystem ==> b
      ensures b ==> isPublic || GetPublicScope() == ScopeProject
      ensures b && GetPublicScope() != ScopeProject ==> GetPublicScope() in {ScopeSystem, ScopeDomain}
    {
      if isPublic && GetPublicScope() == ScopeSystem then true
      else if isPublic && GetPublicScope() == ScopeDomain &&
        ((owner.Some? && owner.value.domainId == req.domainId) ||
         SharedTo(shared, id, keyword, req.domainId, TargetDomain)) then true
      else if GetPublicScope() == ScopeProject &&
        ((owner.Some? && owner.value.projectId == req.projectId) ||
         SharedTo(shared, id, keyword, req.projectId, TargetProject)) then true
      else false
    }

    /**
     * The domains this resource may be handed to on a change of owner: none when it is public
     * to the whole system; otherwise the domains it is shared to (only when public to a domain),
     * followed by the owner's domain when there is one.
     */
    function ChangeOwnerCandidateDomainIds(sharedDomains: seq<string>): (r: seq<string>)
      reads this
      ensures isPublic && GetPublicScope() == ScopeSystem ==> r == []
      ensures !(isPublic && GetPublicScope() == ScopeSystem) ==>
        (owner.Some? && owner.value.domainId != [] ==> |r| > 0 && r[|r| - 1] == owner.value.domainId) &&
        (isPublic && GetPublicScope() == ScopeDomain ==> sharedDomains <= r) &&
        (!(isPublic && GetPublicScope() == ScopeDomain) ==> |r| <= 1) &&
        |r| == (if isPublic && GetPublicScope() == ScopeDomain then |sharedDomains| else 0) +
               (if owner.Some? && owner.value.domainId != [] then 1 else 0)
    {
      if isPublic && GetPublicScope() == ScopeSystem then []
      else
        var candidates := if isPublic && GetPublicScope() == ScopeDomain then sharedDomains else [];
        if owner.Some? && owner.value.domainId != [] then candidates + [owner.value.domainId] else candidates
    }

    /**
     * `SharablePerformPublic`: sets the decided scope, or leaves the resource unchanged and
     * reports why the request was refused.
     */
    method PerformPublic(input: PublicInput, resourceScope: Scope, candidateIds: seq<string>,
                         requireIds: seq<string>, share: ShareFn, allow: Scope,
                         higher: (Scope, Scope) -> bool) returns (err: Option<ShareError>)
      modifies this
      ensures var d := PublicScopeDecision(input, resourceScope, candidateIds, requireIds, share, allow, higher);
        match d
        case Ok(s) =>
          err.None? && isPublic == (s != ScopeNone) && publicScope == ScopeName(s) && GetPublicScope() == s &&
          publicSrc == OwnerSourceLocal
        case Err(e) => err == Some(e) && unchanged(this)
    {
      var d := PublicScopeDecision(input, resourceScope, candidateIds, requireIds, share, allow, higher);
      match d {
        case Ok(s) =>
          SetShare(s);
          err := None;
        case Err(e) =>
          err := Some(e);
      }
    }

    /**
     * `SharablePerformPrivate`: makes the resource private, or leaves it unchanged when it already
     * is or when the request is refused.
     */
    method PerformPrivate(requireIds: seq<string>, cleanOk: bool, allow: Scope, higher: (Scope, Scope) -> bool)
      returns (err: Option<ShareError>)
      modifies this
      ensures var d := PrivateDecision(old(isPublic), old(GetPublicScope()), requireIds, cleanOk, allow, higher);
        match d
        case Ok(None) => err.None? && unchanged(this)
        case Ok(Some(_)) =>
          err.None? && !isPublic && publicScope == ScopeName(ScopeNone) && GetPublicScope() == ScopeNone &&
          publicSrc == OwnerSourceLocal
        case Err(e) => err == Some(e) && unchanged(this)
    {
      var d := PrivateDecision(isPublic, GetPublicScope(), requireIds, cleanOk, allow, higher);
      match d {
        case Ok(None) =>
          err := None;
        case Ok(Some(s)) =>
          SetShare(s);
          err := None;
        case Err(e) =>
          err := Some(e);
      }
    }
  }

  /**
   * The sharing rule case by case: a resource public to the system may be used by everyone; one
   * public to a domain by the owner's domain and the domains it is shared to; one of project
   * scope by the owner's project and the projects it is shared to; and nothing else.
   */
  lemma IsSharableMeaning(r: SharableResource, req: Owner, shared: set<SharedRecord>)
    ensures r.isPublic && r.GetPublicScope() == ScopeSystem ==> r.IsSharable(req, shared)
    ensures r.isPublic && r.GetPublicScope() == ScopeDomain ==>
      (r.IsSharable(req, shared) <==>
        (r.owner.Some? && r.owner.value.domainId == req.domainId) ||
        SharedRecord(r.id, r.keyword, req.domainId, TargetDomain) in shared)
    ensures r.GetPublicScope() == ScopeProject ==>
      (r.IsSharable(req, shared) <==>
        (r.owner.Some? && r.owner.value.projectId == req.projectId) ||
        SharedRecord(r.id, r.keyword, req.projectId, TargetProject) in shared)
    ensures r.GetPublicScope() !in {ScopeSystem, ScopeDomain, ScopeProject} ==> !r.IsSharable(req, shared)
    ensures !r.isPublic && r.GetPublicScope() != ScopeProject ==> !r.IsSharable(req, shared)
  {
  }

  /** Whatever the resource may be used by, its owner may list it at project scope. */
  lemma SharableIsVisible(r: SharableResource, req: Owner, shared: set<SharedRecord>)
    requires r.owner.Some? && req.projectId != []
    requires r.IsSharable(req, shared)
    ensures VisibleToOwner(r.AsRow(), r.keyword, shared, Some(req), ScopeProject, ScopeProject)
  {
  }

  /**
   * The converse fails: a private resource with scope "none" is listed for its own project, yet
   * it is not sharable, not even to that project.
   */
  lemma VisibleNotSharable(r: SharableResource, req: Owner, shared: set<SharedRecord>)
    requires r.owner.Some? && r.owner.value == req && req.projectId != []
    requires !r.isPublic && r.publicScope == "none"
    ensures VisibleToOwner(r.AsRow(), r.keyword, shared, Some(req), ScopeProject, ScopeProject)
    ensures !r.IsSharable(req, shared)
  {
  }

  /** Sharing more never hides a row from a listing. */
  lemma VisibleMonotone(row: Row, keyword: string, shared: set<SharedRecord>, more: set<SharedRecord>,
                        owner: Option<Owner>, resScope: Scope, scope: Scope)
    requires shared <= more
    requires VisibleToOwner(row, keyword, shared, owner, resScope, scope)
    ensures VisibleToOwner(row, keyword, more, owner, resScope, scope)
  {
  }

  /** Sharing more never takes a use away from a requester. */
  lemma SharableMonotone(r: SharableResource, req: Owner, shared: set<SharedRecord>, more: set<SharedRecord>)
    requires shared <= more
    requires r.IsSharable(req, shared)
    ensures r.IsSharable(req, more)
  {
  }

  /**
   * When a resource public to a domain is handed over, it stays usable in every candidate
   * domain, as long as the domains it is shared to are those the table records.
   */
  lemma CandidateDomainsMayUseIt(r: SharableResource, sharedDomains: seq<string>, shared: set<SharedRecord>, projectId: string)
    requires r.isPublic && r.GetPublicScope() == ScopeDomain
    requires forall d :: d in sharedDomains ==> SharedRecord(r.id, r.keyword, d, TargetDomain) in shared
    ensures forall d :: d in r.ChangeOwnerCandidateDomainIds(sharedDomains) ==> r.IsSharable(Owner(projectId, d), shared)
  {
    var cands := r.ChangeOwnerCandidateDomainIds(sharedDomains);
    forall d | d in cands
      ensures r.IsSharable(Owner(projectId, d), shared)
    {
      if d !in sharedDomains {
        assert r.owner.Some? && d == r.owner.value.domainId;
      }
    }
  }

  // ----- merging the candidates and requirements of several sharing constraints -----

  /** The distinct strings of a list: `stringutils2.NewSortedStrings` without its order. */
  function Elems(s: seq<string>): (r: set<string>)
    ensures forall x :: x in r <==> x in s
  {
    set x | x in s
  }

  /** One candidate list of a change of owner, with the owner's domain added when it has one. */
  function WithOwnerDomain(cand: seq<string>, owner: Option<Owner>): (r: set<string>)
    ensures Elems(cand) <= r
    ensures owner.Some? && owner.value.domainId != [] ==> owner.value.domainId in r
    ensures forall x :: x in r ==> x in cand || (owner.Some? && x == owner.value.domainId)
  {
    if owner.Some? && owner.value.domainId != [] then Elems(cand) + {owner.value.domainId} else Elems(cand)
  }

  /**
   * The merged change-owner candidates as the code computes them: each non-empty list (with the
   * owner's domain) is intersected into the running result, except that an EMPTY running result
   * is replaced by the list rather than intersected with it.
   */
  function MergedCandidates(cs: seq<seq<string>>, owner: Option<Owner>): (r: set<string>)
    ensures cs != [] && cs[|cs| - 1] != [] ==> r <= WithOwnerDomain(cs[|cs| - 1], owner)
    ensures (forall k :: 0 <= k < |cs| ==> cs[k] == []) ==> r == {}
  {
    if cs == [] then {}
    else
      var ret := MergedCandidates(cs[..|cs| - 1], owner);
      var last := cs[|cs| - 1];
      if last == [] then ret
      else if ret != {} then ret * WithOwnerDomain(last, owner)
      else WithOwnerDomain(last, owner)
  }

  /** The merged candidates lie within the last non-empty list (with the owner's domain). */
  lemma {:induction false} MergedCandidatesWithinLast(cs: seq<seq<string>>, owner: Option<Owner>, k: nat)
    requires k < |cs| && cs[k] != []
    requires forall j :: k < j < |cs| ==> cs[j] == []
    ensures MergedCandidates(cs, owner) <= WithOwnerDomain(cs[k], owner)
  {
    if k < |cs| - 1 {
      var init := cs[..|cs| - 1];
      assert init[k] == cs[k];
      MergedCandidatesWithinLast(init, owner, k);
    }
  }

  /** `ISharableMergeChangeOwnerCandidateDomainIds`, as the code is written. */
  method MergeChangeOwnerCandidateDomainIds(cs: seq<seq<string>>, owner: Option<Owner>) returns (ret: set<string>)
    ensures ret == MergedCandidates(cs, owner)
  {
    ret := {};
    for i := 0 to |cs|
      invariant ret == MergedCandidates(cs[..i], owner)
    {
      assert cs[..i + 1][..i] == cs[..i];
      if cs[i] != [] {
        var cand := WithOwnerDomain(cs[i], owner);
        if ret != {} {
          ret := ret * cand;
        } else {
          ret := cand;
        }
      }
    }
    assert cs[..|cs|] == cs;
  }

  /**
   * A running intersection that has become empty starts over: three disjoint candidate lists
   * and no owner domain give the last list instead of nothing.
   */
  lemma MergedCandidatesRestarts()
    ensures MergedCandidates([["a"], ["b"], ["c"]], None) == {"c"}
    ensures IntersectedCandidates([["a"], ["b"], ["c"]], None) == {}
  {
    var cs: seq<seq<string>> := [["a"], ["b"], ["c"]];
    assert cs[..2][..1] == [["a"]];
    assert cs[..1][..0] == [];
    assert cs[..2] == [["a"], ["b"]];
    assert cs[..1] == [["a"]];
    assert "a" != "b";
    assert MergedCandidates(cs[..1], None) == {"a"};
    assert MergedCandidates(cs[..2], None) == {};
    assert Intersected(cs[..1], None) == Some({"a"});
    assert Intersected(cs[..2], None) == Some({});
  }

  /** The running intersection of the non-empty lists, None while there has been none. */
  function Intersected(cs: seq<seq<string>>, owner: Option<Owner>): (r: Option<set<string>>)
    ensures r.None? <==> forall k :: 0 <= k < |cs| ==> cs[k] == []
  {
    if cs == [] then None
    else
      var prev := Intersected(cs[..|cs| - 1], owner);
      var last := cs[|cs| - 1];
      if last == [] then prev
      else match prev
        case None => Some(WithOwnerDomain(last, owner))
        case Some(p) => Some(p * WithOwnerDomain(last, owner))
  }

  /** The evidently intended merge: the domains every non-empty candidate list allows. */
  function IntersectedCandidates(cs: seq<seq<string>>, owner: Option<Owner>): set<string> {
    match Intersected(cs, owner)
    case None => {}
    case Some(s) => s
  }

  /**
   * A domain is a merged candidate exactly when some list is non-empty and every non-empty
   * list (with the owner's domain) allows it.
   */
  lemma {:induction false} IntersectedCandidatesMeaning(cs: seq<seq<string>>, owner: Option<Owner>, x: string)
    ensures x in IntersectedCandidates(cs, owner) <==>
      (exists k :: 0 <= k < |cs| && cs[k] != []) &&
      (forall k :: 0 <= k < |cs| && cs[k] != [] ==> x in WithOwnerDomain(cs[k], owner))
  {
    if cs != [] {
      var init := cs[..|cs| - 1];
      IntersectedCandidatesMeaning(init, owner, x);
      assert forall k :: 0 <= k < |init| ==> init[k] == cs[k];
    }
  }

  /**
   * When the owner has a domain, every list contains it, the running result never becomes
   * empty, and the code's merge is the intended intersection.
   */
  lemma {:induction false} MergedCandidatesWithOwnerDomain(cs: seq<seq<string>>, owner: Option<Owner>)
    requires owner.Some? && owner.value.domainId != []
    ensures MergedCandidates(cs, owner) == IntersectedCandidates(cs, owner)
    ensures Intersected(cs, owner).Some? ==> owner.value.domainId in MergedCandidates(cs, owner)
  {
    if cs != [] {
      MergedCandidatesWithOwnerDomain(cs[..|cs| - 1], owner);
    }
  }

  /**
   * `ISharableMergeShareRequireDomainIds` as a value: None when there is no list or some list
   * is empty, otherwise every domain some list requires.
   */
  function MergedRequires(rs: seq<seq<string>>): (r: Option<set<string>>)
    ensures r.None? <==> rs == [] || exists k :: 0 <= k < |rs| && rs[k] == []
    ensures r.Some? ==> forall x :: x in r.value <==> exists k :: 0 <= k < |rs| && x in rs[k]
  {
    if rs == [] then None
    else
      var init := rs[..|rs| - 1];
      var last := rs[|rs| - 1];
      assert forall k :: 0 <= k < |init| ==> init[k] == rs[k];
      if last == [] then None
      else if init == [] then Some(Elems(last))
      else match MergedRequires(init)
        case None => None
        case Some(p) => Some(p + Elems(last))
  }

  /** `ISharableMergeShareRequireDomainIds`: stops at the first empty list. */
  method MergeShareRequireDomainIds(rs: seq<seq<string>>) returns (ret: Option<set<string>>)
    ensures ret == MergedRequires(rs)
  {
    ret := None;
    for i := 0 to |rs|
      invariant ret == MergedRequires(rs[..i])
      invariant i > 0 ==> ret.Some?
    {
      assert rs[..i + 1][..i] == rs[..i];
      if rs[i] != [] {
        var req := Elems(rs[i]);
        if ret.None? {
          ret := Some(req);
        } else {
          ret := Some(ret.value + req);
        }
      } else {
        assert rs[i] == [];
        return None;
      }
    }
    assert rs[..|rs|] == rs;
  }

  // ----- making a resource public or private -----

  /** The body of a perform-public request. */
  datatype PublicInput = PublicInput(scope: string, sharedProjects: seq<string>, sharedDomains: seq<string>)

  /**
   * `shareToTarget(targetType, targetIds, candidateIds, requireIds)`: the ids the resource ends
   * up shared to, or None when the shared-resource table could not be updated.
   */
  type ShareFn = (TargetType, seq<string>, seq<string>, seq<string>) -> Option<seq<string>>

  /** The requested scope, before the shared lists are looked at: system unless it names another. */
  function RequestedScope(input: PublicInput): Scope {
    String2ScopeDefault(input.scope, ScopeSystem)
  }

  /** The scope a request aims at: project when it lists projects, domain when it lists domains. */
  function TargetScope(input: PublicInput): (s: Scope)
    ensures input.sharedProjects != [] ==> s == ScopeProject
    ensures input.sharedProjects == [] && input.sharedDomains != [] ==> s == ScopeDomain
    ensures input.sharedProjects == [] && input.sharedDomains == [] ==> s == RequestedScope(input)
  {
    if input.sharedProjects != [] then ScopeProject
    else if input.sharedDomains != [] then ScopeDomain
    else RequestedScope(input)
  }

  /**
   * A perform-public request passes the two checks made before its target is handled: the
   * requested scope is not below the resource's own, and it does not list both projects and domains.
   */
  predicate PassesPrechecks(input: PublicInput, resourceScope: Scope, higher: (Scope, Scope) -> bool) {
    !higher(resourceScope, RequestedScope(input)) && !(input.sharedProjects != [] && input.sharedDomains != [])
  }

  /**
   * The scope a perform-public request sets, or why it is refused. A resource is never shared
   * below its own scope. Shared projects force project scope and shared domains force domain
   * scope, and both at once are refused. Project scope needs exactly one required domain and
   * becomes "none" when nothing ends up shared; domain scope needs some required domain and
   * becomes "none" for a domain resource shared to no domain; system scope is refused while the
   * resource is limited to candidate domains. The result may not exceed the allowed scope.
   */
  function PublicScopeDecision(input: PublicInput, resourceScope: Scope, candidateIds: seq<string>,
                               requireIds: seq<string>, share: ShareFn, allow: Scope,
                               higher: (Scope, Scope) -> bool): (r: Result<Scope, ShareError>)
    ensures higher(resourceScope, RequestedScope(input)) ==> r == Err(NotSupported)
    ensures !higher(resourceScope, RequestedScope(input)) && input.sharedProjects != [] && input.sharedDomains != [] ==>
      r == Err(InputParameter)
    ensures r.Ok? ==> !higher(r.value, allow) && !higher(resourceScope, RequestedScope(input))
    ensures r.Ok? && input.sharedProjects != [] ==> r.value in {ScopeProject, ScopeNone} && |requireIds| == 1
    ensures r.Ok? && input.sharedDomains != [] ==> r.value in {ScopeDomain, ScopeNone} && requireIds != []
    ensures r.Ok? && r.value == ScopeSystem ==> candidateIds == [] && input.sharedProjects == [] && input.sharedDomains == []
    ensures r.Ok? ==> r.value == TargetScope(input) || r.value == ScopeNone
    ensures r.Ok? && TargetScope(input) == ScopeProject ==> |requireIds| == 1
    ensures r.Ok? && TargetScope(input) == ScopeDomain ==>
      requireIds != [] && share(TargetProject, [], [], []).Some? &&
      share(TargetDomain, input.sharedDomains, candidateIds, requireIds).Some?
    ensures r.Ok? && TargetScope(input) == ScopeSystem ==>
      share(TargetProject, [], [], []).Some? && share(TargetDomain, [], [], []).Some?
    ensures r.Ok? && r.value == ScopeNone ==>
      TargetScope(input) == ScopeNone ||
      (TargetScope(input) == ScopeProject && share(TargetProject, input.sharedProjects, [], []) == Some([])) ||
      (TargetScope(input) == ScopeDomain && resourceScope == ScopeDomain &&
        share(TargetDomain, input.sharedDomains, candidateIds, requireIds) == Some([]))
    ensures PassesPrechecks(input, resourceScope, higher) ==>
      var t := TargetScope(input);
      ((t == ScopeProject || t == ScopeDomain) && requireIds == [] ==> r == Err(RequireSystem)) &&
      (t == ScopeProject && |requireIds| > 1 ==> r == Err(RequireOtherDomain)) &&
      (t == ScopeProject && |requireIds| == 1 && share(TargetProject, input.sharedProjects, [], []).None? ==>
        r == Err(ShareFailed)) &&
      (t == ScopeDomain && requireIds != [] && share(TargetProject, [], [], []).None? ==> r == Err(ShareFailed)) &&
      ((t == ScopeDomain && requireIds != [] && share(TargetProject, [], [], []).Some? &&
        share(TargetDomain, input.sharedDomains, candidateIds, requireIds).None?) ==> r == Err(ShareFailed)) &&
      (t == ScopeSystem && candidateIds != [] ==> r == Err(LimitedToDomains)) &&
      (t == ScopeSystem && candidateIds == [] && share(TargetProject, [], [], []).None? ==> r == Err(ShareFailed)) &&
      ((t == ScopeSystem && candidateIds == [] && share(TargetProject, [], [], []).Some? &&
        share(TargetDomain, [], [], []).None?) ==> r == Err(ShareFailed))
    ensures r.Err? && r.error.NotSufficientPrivilege? ==>
      r.error.allow == allow && higher(r.error.require, allow) &&
      (r.error.require == TargetScope(input) || r.error.require == ScopeNone)
  {
    var requested := RequestedScope(input);
    if higher(resourceScope, requested) then Err(NotSupported)
    else if input.sharedProjects != [] && input.sharedDomains != [] then Err(InputParameter)
    else
      var target := TargetScope(input);
      var chosen: Result<Scope, ShareError> :=
        match target
        case ScopeProject =>
          if requireIds == [] then Err(RequireSystem)
          else if |requireIds| > 1 then Err(RequireOtherDomain)
          else (match share(TargetProject, input.sharedProjects, [], [])
            case None => Err(ShareFailed)
            case Some(projects) => Ok(if projects == [] then ScopeNone else ScopeProject))
        case ScopeDomain =>
          if requireIds == [] then Err(RequireSystem)
          else if share(TargetProject, [], [], []).None? then Err(ShareFailed)
          else (match share(TargetDomain, input.sharedDomains, candidateIds, requireIds)
            case None => Err(ShareFailed)
            case Some(domains) => Ok(if domains == [] && resourceScope == ScopeDomain then ScopeNone else ScopeDomain))
        case ScopeSystem =>
          if candidateIds != [] then Err(LimitedToDomains)
          else if share(TargetProject, [], [], []).None? then Err(ShareFailed)
          else if share(TargetDomain, [], [], []).None? then Err(ShareFailed)
          else Ok(ScopeSystem)
        case _ => Ok(target);
      match chosen
      case Err(e) => Err(e)
      case Ok(s) => if higher(s, allow) then Err(NotSufficientPrivilege(s, allow)) else Ok(s)
  }

  /** Sharing to projects that all fail to be shared leaves a project resource private. */
  lemma PublicToNoProjectIsPrivate(input: PublicInput, resourceScope: Scope, candidateIds: seq<string>,
                                   requireIds: seq<string>, share: ShareFn, allow: Scope, higher: (Scope, Scope) -> bool)
    requires input.sharedProjects != [] && input.sharedDomains == [] && |requireIds| == 1
    requires !higher(resourceScope, RequestedScope(input)) && !higher(ScopeNone, allow)
    requires share(TargetProject, input.sharedProjects, [], []) == Some([])
    ensures PublicScopeDecision(input, resourceScope, candidateIds, requireIds, share, allow, higher) == Ok(ScopeNone)
  {
  }

  /** Sharing to projects of which some end up shared sets project scope, unless that is above the allowed one. */
  lemma PublicToProjects(input: PublicInput, resourceScope: Scope, candidateIds: seq<string>,
                         requireIds: seq<string>, share: ShareFn, allow: Scope, higher: (Scope, Scope) -> bool,
                         projects: seq<string>)
    requires input.sharedProjects != [] && input.sharedDomains == [] && |requireIds| == 1
    requires !higher(resourceScope, RequestedScope(input))
    requires share(TargetProject, input.sharedProjects, [], []) == Some(projects) && projects != []
    ensures PublicScopeDecision(input, resourceScope, candidateIds, requireIds, share, allow, higher) ==
      if higher(ScopeProject, allow) then Err(NotSufficientPrivilege(ScopeProject, allow)) else Ok(ScopeProject)
  {
  }

  /**
   * Sharing to domains, with a required domain and both table updates succeeding, sets domain
   * scope (unless a domain resource ends up shared to no domain), or is refused above the allowed scope.
   */
  lemma PublicToDomains(input: PublicInput, resourceScope: Scope, candidateIds: seq<string>,
                        requireIds: seq<string>, share: ShareFn, allow: Scope, higher: (Scope, Scope) -> bool,
                        domains: seq<string>)
    requires input.sharedProjects == [] && input.sharedDomains != [] && requireIds != []
    requires !higher(resourceScope, RequestedScope(input))
    requires share(TargetProject, [], [], []).Some?
    requires share(TargetDomain, input.sharedDomains, candidateIds, requireIds) == Some(domains)
    requires domains != [] || resourceScope != ScopeDomain
    ensures PublicScopeDecision(input, resourceScope, candidateIds, requireIds, share, allow, higher) ==
      if higher(ScopeDomain, allow) then Err(NotSufficientPrivilege(ScopeDomain, allow)) else Ok(ScopeDomain)
  {
  }

  /**
   * A request for system scope by a resource limited to no domain, with both shares cleaned, sets
   * system scope, or is refused when system scope is above the allowed one.
   */
  lemma PublicToSystem(input: PublicInput, resourceScope: Scope, requireIds: seq<string>, share: ShareFn,
                       allow: Scope, higher: (Scope, Scope) -> bool)
    requires input.sharedProjects == [] && input.sharedDomains == [] && RequestedScope(input) == ScopeSystem
    requires !higher(resourceScope, ScopeSystem)
    requires share(TargetProject, [], [], []).Some? && share(TargetDomain, [], [], []).Some?
    ensures PublicScopeDecision(input, resourceScope, [], requireIds, share, allow, higher) ==
      if higher(ScopeSystem, allow) then Err(NotSufficientPrivilege(ScopeSystem, allow)) else Ok(ScopeSystem)
  {
  }

  /**
   * A target other than project, domain and system (a request for "user" or "none" scope that
   * lists nothing) shares nothing and is only checked against the allowed scope.
   */
  lemma PublicToOther(input: PublicInput, resourceScope: Scope, candidateIds: seq<string>,
                      requireIds: seq<string>, share: ShareFn, allow: Scope, higher: (Scope, Scope) -> bool)
    requires PassesPrechecks(input, resourceScope, higher)
    requires TargetScope(input) !in {ScopeProject, ScopeDomain, ScopeSystem}
    ensures var t := TargetScope(input);
      PublicScopeDecision(input, resourceScope, candidateIds, requireIds, share, allow, higher) ==
        if higher(t, allow) then Err(NotSufficientPrivilege(t, allow)) else Ok(t)
  {
  }

  /**
   * The scope a perform-private request leaves, or why it is refused: a resource already private
   * stays as it is; otherwise exactly one required domain is needed, the current scope may not
   * exceed the allowed one, and its shares must be cleaned.
   */
  function PrivateDecision(isPublic: bool, current: Scope, requireIds: seq<string>, cleanOk: bool,
                           allow: Scope, higher: (Scope, Scope) -> bool): (r: Result<Option<Scope>, ShareError>)
    ensures r == Ok(None) <==> !isPublic && current == ScopeNone
    ensures (isPublic || current != ScopeNone) && requireIds == [] ==> r == Err(RequireSystem)
    ensures (isPublic || current != ScopeNone) && |requireIds| > 1 ==> r == Err(RequireOtherDomain)
    ensures (isPublic || current != ScopeNone) && |requireIds| == 1 && higher(current, allow) ==>
      r == Err(NotSufficientPrivilege(current, allow))
    ensures (isPublic || current != ScopeNone) && |requireIds| == 1 && !higher(current, allow) && !cleanOk ==>
      r == Err(ShareFailed)
    ensures r.Ok? && r.value.Some? ==> r.value.value == ScopeNone && |requireIds| == 1 && !higher(current, allow) && cleanOk
    ensures (isPublic || current != ScopeNone) && |requireIds| == 1 && !higher(current, allow) && cleanOk ==>
      r == Ok(Some(ScopeNone))
  {
    if !isPublic && current == ScopeNone then Ok(None)
    else if requireIds == [] then Err(RequireSystem)
    else if |requireIds| > 1 then Err(RequireOtherDomain)
    else if higher(current, allow) then Err(NotSufficientPrivilege(current, allow))
    else if !cleanOk then Err(ShareFailed)
    else Ok(Some(ScopeNone))
  }
}
