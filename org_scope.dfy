/** Org scoping and single-org access checks of the auth library
    (org-scope.helper.ts). The hierarchy has two levels: a root org
    (`parentId == null`) and its direct children. */
module OrgScope {
  import opened Common

  /** The minimal org shape the scoping logic needs. */
  datatype OrgReference = OrgReference(id: string, parentId: Option<string>)

  /** What resolveOrgScope returns. */
  datatype OrgScopeResult = OrgScopeResult(
    allowedOrgIds: seq<string>,
    canAccessChildren: bool,
    isParentOrg: bool)

  /** The ids of `orgs`, in input order, duplicates kept. */
  function Ids(orgs: seq<OrgReference>): (ids: seq<string>)
    ensures |ids| == |orgs|
    ensures forall k :: 0 <= k < |orgs| ==> ids[k] == orgs[k].id
  {
    if orgs == [] then [] else [orgs[0].id] + Ids(orgs[1..])
  }

  /** No id occurs twice. */
  predicate Distinct(s: seq<string>) {
    forall i, j :: 0 <= i < j < |s| ==> s[i] != s[j]
  }

  /** The scope resolveOrgScope computes: the caller's own org first; then,
      for an OWNER of a root org only, the ids of the supplied children in
      the order given. The children's own parentId is never consulted. */
  function ScopeOf(user: RequestUser, userOrg: OrgReference, childOrgs: seq<OrgReference>): (r: OrgScopeResult)
    ensures r.isParentOrg <==> userOrg.parentId == None
    ensures r.canAccessChildren <==> r.isParentOrg && user.role == OWNER
    ensures |r.allowedOrgIds| >= 1 && r.allowedOrgIds[0] == user.orgId
    ensures !r.canAccessChildren ==> r.allowedOrgIds == [user.orgId]
    ensures r.canAccessChildren ==>
              |r.allowedOrgIds| == 1 + |childOrgs| &&
              forall k :: 0 <= k < |childOrgs| ==> r.allowedOrgIds[k + 1] == childOrgs[k].id
    ensures forall id :: id in r.allowedOrgIds <==>
              id == user.orgId || (r.canAccessChildren && id in Ids(childOrgs))
  {
    var isParentOrg := userOrg.parentId == None;
    var canAccessChildren := isParentOrg && user.role == OWNER;
    var allowed := if canAccessChildren then [user.orgId] + Ids(childOrgs) else [user.orgId];
    OrgScopeResult(allowed, canAccessChildren, isParentOrg)
  }

  /** resolveOrgScope: starts from the caller's org and pushes each child id. */
  method ResolveOrgScope(user: RequestUser, userOrg: OrgReference, childOrgs: seq<OrgReference>)
    returns (r: OrgScopeResult)
    ensures r == ScopeOf(user, userOrg, childOrgs)
  {
    var isParentOrg := userOrg.parentId == None;
    var canAccessChildren := isParentOrg && user.role == OWNER;
    var allowedOrgIds := [user.orgId];
    if canAccessChildren {
      for i := 0 to |childOrgs|
        invariant |allowedOrgIds| == 1 + i
        invariant allowedOrgIds[0] == user.orgId
        invariant forall k :: 0 <= k < i ==> allowedOrgIds[k + 1] == childOrgs[k].id
      {
        allowedOrgIds := allowedOrgIds + [childOrgs[i].id];
      }
      assert allowedOrgIds == [user.orgId] + Ids(childOrgs);
    }
    r := OrgScopeResult(allowedOrgIds, canAccessChildren, isParentOrg);
  }

  /** canAccessOrg: same org always; otherwise only an OWNER of a root org
      reaching a resolved target whose parent is the caller's org. */
  function CanAccessOrg(user: RequestUser, targetOrgId: string, userOrg: OrgReference,
                        targetOrg: Option<OrgReference>): (allowed: bool)
    ensures user.orgId == targetOrgId ==> allowed
    ensures user.orgId != targetOrgId ==>
              (allowed <==> && userOrg.parentId == None
                            && user.role == OWNER
                            && targetOrg.Some?
                            && targetOrg.value.parentId == Some(user.orgId))
  {
    if user.orgId == targetOrgId then true
    else
      var isParentOrg := userOrg.parentId == None;
      if !isParentOrg || user.role != OWNER then false
      else targetOrg.Some? && targetOrg.value.parentId == Some(user.orgId)
  }

  /** getOrgIdsForQuery: delegates to resolveOrgScope. */
  method GetOrgIdsForQuery(user: RequestUser, userOrg: OrgReference, childOrgs: seq<OrgReference>)
    returns (ids: seq<string>)
    ensures ids == ScopeOf(user, userOrg, childOrgs).allowedOrgIds
  {
    var scope := ResolveOrgScope(user, userOrg, childOrgs);
    ids := scope.allowedOrgIds;
  }

  /** A caller in a child org is confined to its own org, whatever its role:
      no other id is ever granted, and its scope is its own id alone. */
  lemma ChildOrgPrincipalConfined(user: RequestUser, userOrg: OrgReference, childOrgs: seq<OrgReference>,
                                  targetOrgId: string, targetOrg: Option<OrgReference>)
    requires userOrg.parentId.Some?
    ensures CanAccessOrg(user, targetOrgId, userOrg, targetOrg) <==> targetOrgId == user.orgId
    ensures ScopeOf(user, userOrg, childOrgs).allowedOrgIds == [user.orgId]
  {
  }

  /** The two functions never disagree on the caller's own org or on one of
      the supplied children, provided the org really is the caller's and the
      children really are its children. Distinct child ids are not needed. */
  lemma {:induction false} ScopeAgreesWithAccess(user: RequestUser, userOrg: OrgReference,
                                                 childOrgs: seq<OrgReference>, o: OrgReference)
    requires user.orgId == userOrg.id
    requires forall c :: c in childOrgs ==> c.parentId == Some(user.orgId)
    requires o == userOrg || o in childOrgs
    ensures CanAccessOrg(user, o.id, userOrg, Some(o)) <==> o.id in ScopeOf(user, userOrg, childOrgs).allowedOrgIds
  {
    var scope := ScopeOf(user, userOrg, childOrgs);
    if o != userOrg && o.id != user.orgId {
      var k :| 0 <= k < |childOrgs| && childOrgs[k] == o;
      if scope.canAccessChildren {
        assert scope.allowedOrgIds[k + 1] == o.id;
      }
    }
  }

  /** The scope holds no duplicate iff the children are not lent to it
      (not an OWNER of a root) or their ids are distinct and differ from the
      caller's own id: resolveOrgScope does no de-duplication of its own. */
  lemma {:induction false} ScopeDistinctIff(user: RequestUser, userOrg: OrgReference, childOrgs: seq<OrgReference>)
    ensures Distinct(ScopeOf(user, userOrg, childOrgs).allowedOrgIds) <==>
              !ScopeOf(user, userOrg, childOrgs).canAccessChildren ||
              (Distinct(Ids(childOrgs)) && user.orgId !in Ids(childOrgs))
  {
    var scope := ScopeOf(user, userOrg, childOrgs);
    var ids := Ids(childOrgs);
    var s := scope.allowedOrgIds;
    if scope.canAccessChildren {
      assert s == [user.orgId] + ids;
      if Distinct(s) {
        forall i, j | 0 <= i < j < |ids| ensures ids[i] != ids[j] {
          assert s[i + 1] == ids[i] && s[j + 1] == ids[j];
        }
      }
      if Distinct(ids) && user.orgId !in ids {
        forall i, j | 0 <= i < j < |s| ensures s[i] != s[j] {
          if i == 0 {
            assert s[j] == ids[j - 1];
          } else {
            assert s[i] == ids[i - 1] && s[j] == ids[j - 1];
          }
        }
      }
    }
  }

  /** The scenario of the seed data: root R with child C; OWNER u1 of R sees
      both, ADMIN u2 of C only C; u1 may reach C, u2 may not reach R. */
  lemma RootAndChildScenario()
    ensures var r := OrgReference("R", None);
            var c := OrgReference("C", Some("R"));
            var u1 := RequestUser("u1", OWNER, "R");
            var u2 := RequestUser("u2", ADMIN, "C");
            && ScopeOf(u1, r, [c]).allowedOrgIds == ["R", "C"]
            && ScopeOf(u2, c, []).allowedOrgIds == ["C"]
            && CanAccessOrg(u1, "C", r, Some(c))
            && !CanAccessOrg(u2, "R", c, Some(r))
  {
  }
}
