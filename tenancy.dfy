/** Tenant resolution and the cross-tenant guard (tenant.middleware.js).
    `tenantMiddleware` finds the request's tenant, from the authenticated user
    or from a request header, and records it on the request;
    `enforceTenantIsolation` refuses a user of one tenant on another's. */
module Tenancy {

  import opened Common
  import Store

  datatype Tenant = Tenant(id: Id, slug: string, isActive: bool)

  /** The authenticated user as the token middleware leaves it on the request. */
  datatype AuthUser = AuthUser(id: Id, role: string, tenantId: Option<Id>)

  /** What a middleware does: hand over to the next handler, or answer with a
      status and an error text. */
  datatype Outcome = Next | Respond(status: nat, error: string)

  const TenantInactive := Respond(403, "Tenant not found or inactive")
  const TenantRequired := Respond(400, "Tenant identifier required")
  const TenantNotFound := Respond(404, "Tenant not found")
  const CrossTenant := Respond(403, "Cross-tenant access denied")

  const TenantIdHeader := "x-tenant-id"
  const TenantSlugHeader := "x-tenant-slug"

  class Request {
    var user: Option<AuthUser>
    var headers: map<string, string>
    var tenant: Option<Tenant>

    constructor (user: Option<AuthUser>, headers: map<string, string>)
      ensures this.user == user && this.headers == headers && tenant == None
    {
      this.user := user;
      this.headers := headers;
      tenant := None;
    }
  }

  function Header(headers: map<string, string>, name: string): Option<string>
  {
    if name in headers then Some(headers[name]) else None
  }

  /** `x-tenant-id || x-tenant-slug`: the value is looked up as a slug
      whichever header carries it. */
  function TenantKey(headers: map<string, string>): (k: Option<string>)
    ensures Truthy(Header(headers, TenantIdHeader)) ==> k == Header(headers, TenantIdHeader)
    ensures !Truthy(Header(headers, TenantIdHeader)) ==> k == Header(headers, TenantSlugHeader)
  {
    if Truthy(Header(headers, TenantIdHeader)) then Header(headers, TenantIdHeader)
    else Header(headers, TenantSlugHeader)
  }

  /** Header precedence: a tenant key is found iff either header is truthy,
      and a truthy `x-tenant-id` makes `x-tenant-slug` irrelevant. */
  lemma HeaderPrecedence(headers: map<string, string>, slug: string)
    ensures Truthy(TenantKey(headers)) <==>
      Truthy(Header(headers, TenantIdHeader)) || Truthy(Header(headers, TenantSlugHeader))
    ensures Truthy(Header(headers, TenantIdHeader)) ==>
      TenantKey(headers[TenantSlugHeader := slug]) == TenantKey(headers)
  {
    assert |TenantIdHeader| != |TenantSlugHeader|;
    assert Header(headers[TenantSlugHeader := slug], TenantIdHeader) == Header(headers, TenantIdHeader);
  }

  function WithId(id: Id): Tenant -> bool
  {
    (t: Tenant) => t.id == id
  }

  function WithSlug(slug: string): Tenant -> bool
  {
    (t: Tenant) => t.slug == slug
  }

  /** Ids and slugs are unique keys of the tenant table. */
  ghost predicate TenantsKeyed(tenants: seq<Tenant>)
  {
    && (forall t, u :: t in tenants && u in tenants && t.id == u.id ==> t == u)
    && (forall t, u :: t in tenants && u in tenants && t.slug == u.slug ==> t == u)
  }

  /** `tenantMiddleware`. With an authenticated user's tenant id, that tenant
      must exist and be active (else 403) and the headers are not read.
      Otherwise a tenant key header is required (else 400) and must name an
      active tenant by slug (else 404). On success the tenant is recorded on
      the request and the next handler runs. */
  method TenantMiddleware(req: Request, tenants: seq<Tenant>) returns (o: Outcome)
    requires TenantsKeyed(tenants)
    modifies req
    ensures req.user == old(req.user) && req.headers == old(req.headers)
    ensures o.Next? ==> req.tenant.Some? && req.tenant.value in tenants && req.tenant.value.isActive
    ensures !o.Next? ==> req.tenant == old(req.tenant)
    ensures req.user.Some? && req.user.value.tenantId.Some? ==>
      var id := req.user.value.tenantId.value;
      if exists t :: t in tenants && t.id == id && t.isActive then o.Next? && req.tenant.value.id == id
      else o == TenantInactive
    ensures !(req.user.Some? && req.user.value.tenantId.Some?) ==>
      var key := TenantKey(req.headers);
      if !Truthy(key) then o == TenantRequired
      else if exists t :: t in tenants && t.slug == key.value && t.isActive then o.Next? && req.tenant.value.slug == key.value
      else o == TenantNotFound
    ensures o.Next? && req.user.Some? && req.user.value.tenantId.Some? ==>
      EnforceTenantIsolation(req.user, req.tenant) == Next
  {
    if req.user.Some? && req.user.value.tenantId.Some? {
      var id := req.user.value.tenantId.value;
      var found := Store.FindFirst(tenants, WithId(id));
      if found.None? || !tenants[found.value].isActive {
        forall t | t in tenants && t.id == id ensures !t.isActive {
          var k :| 0 <= k < |tenants| && tenants[k] == t;
          assert WithId(id)(tenants[k]);
        }
        return TenantInactive;
      }
      assert WithId(id)(tenants[found.value]);
      req.tenant := Some(tenants[found.value]);
      return Next;
    }
    var key := TenantKey(req.headers);
    if !Truthy(key) {
      return TenantRequired;
    }
    var found := Store.FindFirst(tenants, WithSlug(key.value));
    if found.None? || !tenants[found.value].isActive {
      forall t | t in tenants && t.slug == key.value ensures !t.isActive {
        var k :| 0 <= k < |tenants| && tenants[k] == t;
        assert WithSlug(key.value)(tenants[k]);
      }
      return TenantNotFound;
    }
    assert WithSlug(key.value)(tenants[found.value]);
    req.tenant := Some(tenants[found.value]);
    o := Next;
  }

  /** `enforceTenantIsolation`: with both a user and a tenant on the request,
      the user's tenant must be that tenant. */
  function EnforceTenantIsolation(user: Option<AuthUser>, tenant: Option<Tenant>): (o: Outcome)
    ensures user.None? || tenant.None? ==> o == Next
    ensures user.Some? && tenant.Some? ==> (o == CrossTenant <==> user.value.tenantId != Some(tenant.value.id))
    ensures o == Next || o == CrossTenant
  {
    if user.None? || tenant.None? then Next
    else if user.value.tenantId != Some(tenant.value.id) then CrossTenant
    else Next
  }

  /** A signed-in user without a tenant (self-registration sets none) is
      refused on every tenant a header names. */
  lemma TenantlessUserRefused(user: AuthUser, t: Tenant)
    requires user.tenantId.None?
    ensures EnforceTenantIsolation(Some(user), Some(t)) == CrossTenant
  {
  }
}
