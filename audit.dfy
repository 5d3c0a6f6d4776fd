/** The audit trail (audit.service.js): `log` turns a request into one stored
    entry, normalising missing fields, and never fails its caller;
    `getAuditLogs` lists one tenant's entries, newest first, a page at a time. */
module Audit {

  import opened Common
  import Store

  /** A value inside a before/after snapshot object. */
  datatype Value = Text(text: string) | Number(number: int)

  type Snapshot = map<string, Value>

  /** The argument object of `log`; every optional field may be missing. */
  datatype LogRequest = LogRequest(
    userId: Option<Id>, tenantId: Id, action: string, entity: string,
    entityId: Option<Id>, before: Option<Snapshot>, after: Option<Snapshot>,
    correlationId: Option<string>, ipAddress: Option<string>, userAgent: Option<string>)

  /** A stored audit row; `None` stands for a stored null. */
  datatype Entry = Entry(
    id: Id, userId: Option<Id>, tenantId: Id, action: string, entity: string,
    entityId: Option<Id>, before: Option<Snapshot>, after: Option<Snapshot>,
    correlationId: string, ipAddress: Option<string>, userAgent: Option<string>,
    createdAt: int)

  /** The correlation id recorded when the caller gives none. */
  const SystemCorrelation := "system"

  /** The row `log` writes for a request: missing or empty optional fields
      become null and a missing correlation id becomes "system". */
  function Normalise(req: LogRequest, id: Id, now: int): (e: Entry)
    ensures e.correlationId != ""
    ensures e.ipAddress != Some("") && e.userAgent != Some("")
  {
    Entry(id, req.userId, req.tenantId, req.action, req.entity, req.entityId,
          req.before, req.after, OrElse(req.correlationId, SystemCorrelation),
          OrNull(req.ipAddress), OrNull(req.userAgent), now)
  }

  /** A stored entry read back as a request. */
  function AsRequest(e: Entry): LogRequest
  {
    LogRequest(e.userId, e.tenantId, e.action, e.entity, e.entityId, e.before, e.after,
               Some(e.correlationId), e.ipAddress, e.userAgent)
  }

  /** Normalisation keeps every field the caller gave in a usable form, and
      logging a stored entry again stores the same entry. */
  lemma NormaliseKeeps(req: LogRequest, id: Id, now: int)
    ensures var e := Normalise(req, id, now);
      && e.tenantId == req.tenantId && e.action == req.action && e.entity == req.entity
      && e.userId == req.userId && e.entityId == req.entityId
      && e.before == req.before && e.after == req.after
      && (Truthy(req.correlationId) ==> e.correlationId == req.correlationId.value)
      && (!Truthy(req.correlationId) ==> e.correlationId == SystemCorrelation)
      && (Truthy(req.ipAddress) <==> e.ipAddress == req.ipAddress && e.ipAddress.Some?)
      && (Truthy(req.userAgent) <==> e.userAgent == req.userAgent && e.userAgent.Some?)
      && Normalise(AsRequest(e), id, now) == e
  {
  }

  /** The `where` object of `getAuditLogs`. */
  datatype Where = Where(tenantId: Id, userId: Option<Id>, action: Option<string>)

  function Matches(w: Where): Entry -> bool
  {
    (e: Entry) => e.tenantId == w.tenantId
         && (w.userId.Some? ==> e.userId == w.userId)
         && (w.action.Some? ==> e.action == w.action.value)
  }

  /** `orderBy: { createdAt: 'desc' }` as an ascending key. */
  function NewestKey(e: Entry): (int, int)
  {
    (-e.createdAt, 0)
  }

  predicate NewestFirst(s: seq<Entry>)
  {
    forall i, j :: 0 <= i < j < |s| ==> s[i].createdAt >= s[j].createdAt
  }

  /** Ascending on `NewestKey` is newest first. */
  lemma SortedIsNewestFirst(s: seq<Entry>)
    requires Store.SortedBy(s, NewestKey)
    ensures NewestFirst(s)
  {
    forall i, j | 0 <= i < j < |s| ensures s[i].createdAt >= s[j].createdAt {
      assert Store.KeyLe(NewestKey(s[i]), NewestKey(s[j]));
    }
  }

  const DefaultPage := 1
  const DefaultLimit := 20

  class AuditLog {
    var entries: seq<Entry>
    var nextId: nat

    /** Row ids increase along the table and stay below the counter. */
    ghost predicate Valid()
      reads this
    {
      && (forall i, j :: 0 <= i < j < |entries| ==> entries[i].id < entries[j].id)
      && (forall i :: 0 <= i < |entries| ==> entries[i].id < nextId)
    }

    constructor ()
      ensures Valid() && entries == []
    {
      entries := [];
      nextId := 0;
    }

    /** `log`: writes one normalised entry, or nothing when the store fails;
        either way the caller carries on, as the failure is swallowed. */
    method Log(req: LogRequest, now: int, storeFails: bool)
      requires Valid()
      modifies this
      ensures Valid()
      ensures storeFails ==> entries == old(entries)
      ensures !storeFails ==> entries == old(entries) + [Normalise(req, old(nextId), now)]
    {
      if !storeFails {
        entries := entries + [Normalise(req, nextId, now)];
        nextId := nextId + 1;
      }
    }

    /** `getAuditLogs`: the page of the tenant's entries matching the optional
        user and action filters, newest first, and the page arithmetic. */
    method GetAuditLogs(tenantId: Id, userId: Option<Id>, action: Option<string>,
                        page: Option<int>, limit: Option<int>)
      returns (logs: seq<Entry>, pagination: Store.Pagination)
      requires page.Some? ==> page.value >= 1
      requires limit.Some? ==> limit.value >= 1
      ensures pagination.page == (if page.Some? then page.value else DefaultPage)
      ensures pagination.limit == (if limit.Some? then limit.value else DefaultLimit)
      ensures forall e :: e in logs ==>
        && e in entries && e.tenantId == tenantId
        && (userId.Some? ==> e.userId == userId)
        && (Truthy(action) ==> e.action == action.value)
      ensures pagination.total == |Store.Filter(entries, Matches(Where(tenantId, userId, if Truthy(action) then action else None)))|
      ensures NewestFirst(logs)
      ensures |logs| <= pagination.limit
      ensures Store.IsPageCount(pagination.total, pagination.limit, pagination.totalPages)
      ensures exists ordered ::
        && Store.OrderedQuery(ordered, entries, Matches(Where(tenantId, userId, if Truthy(action) then action else None)), NewestKey)
        && logs == Store.Window(ordered, Store.Skip(pagination.page, pagination.limit), pagination.limit)
    {
      var p := if page.Some? then page.value else DefaultPage;
      var l := if limit.Some? then limit.value else DefaultLimit;
      var where := Where(tenantId, None, None);
      if userId.Some? {
        where := where.(userId := userId);
      }
      if Truthy(action) {
        where := where.(action := action);
      }
      assert where == Where(tenantId, userId, if Truthy(action) then action else None);
      var matching := Store.Filter(entries, Matches(where));
      var ordered := Store.SortBy(matching, NewestKey);
      logs := Store.Window(ordered, Store.Skip(p, l), l);
      assert Store.OrderedQuery(ordered, entries, Matches(where), NewestKey);
      Store.PageOfQuery(entries, Matches(where), NewestKey, Store.Skip(p, l), l);
      SortedIsNewestFirst(logs);
      pagination := Store.Paginate(|matching|, p, l);
    }
  }
}
