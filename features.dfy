/** Per-tenant feature flags (features.service.js): `getFlags` folds a
    tenant's stored flags into a key-to-setting map and keeps it in a cache,
    `isEnabled` decides a flag for a role, and `setFlag` upserts one flag and
    drops the tenant's cached map. */
module Features {

  import opened Common
  import Store

  /** The four flag keys the application knows. */
  const QuizAttempts := "quiz_attempts"
  const BookingSystem := "booking_system"
  const AdvancedReporting := "advanced_reporting"
  const BulkEnrollment := "bulk_enrollment"

  /** A stored flag; (tenantId, key) is unique in the table. */
  datatype Flag = Flag(id: Id, tenantId: Id, key: string, enabled: bool, roles: seq<string>)

  /** The value a key maps to in the answer of `getFlags`. */
  datatype FlagView = FlagView(enabled: bool, roles: seq<string>)

  type FlagMap = map<string, FlagView>

  function View(f: Flag): FlagView
  {
    FlagView(f.enabled, f.roles)
  }

  /** The `reduce` of `getFlags`: each flag writes its key, a later one over
      an earlier one. */
  function FoldFlags(flags: seq<Flag>): (m: FlagMap)
    ensures forall k :: k in m <==> exists f :: f in flags && f.key == k
  {
    if flags == [] then map[]
    else
      var last := flags[|flags| - 1];
      var m := FoldFlags(flags[..|flags| - 1])[last.key := View(last)];
      assert forall f :: f in flags <==> f in flags[..|flags| - 1] || f == last by {
        assert flags == flags[..|flags| - 1] + [last];
      }
      m
  }

  /** The reduce loop, written as the accumulator updates it. */
  method BuildFlagMap(flags: seq<Flag>) returns (acc: FlagMap)
    ensures acc == FoldFlags(flags)
  {
    acc := map[];
    var i := 0;
    while i < |flags|
      invariant 0 <= i <= |flags|
      invariant acc == FoldFlags(flags[..i])
    {
      assert flags[..i + 1][..i] == flags[..i];
      acc := acc[flags[i].key := View(flags[i])];
      i := i + 1;
    }
    assert flags[..i] == flags;
  }

  /** No two flags of the sequence share a key. */
  ghost predicate KeysUnique(flags: seq<Flag>)
  {
    forall f, g :: f in flags && g in flags && f.key == g.key ==> f == g
  }

  /** With unique keys, the folded map sends each flag's key to that flag. */
  lemma {:induction false} FoldFlagsUnique(flags: seq<Flag>)
    requires KeysUnique(flags)
    ensures forall f :: f in flags ==> FoldFlags(flags)[f.key] == View(f)
  {
    if flags != [] {
      var init := flags[..|flags| - 1];
      var last := flags[|flags| - 1];
      assert flags == init + [last];
      assert KeysUnique(init);
      FoldFlagsUnique(init);
      forall f | f in flags ensures FoldFlags(flags)[f.key] == View(f) {
        if f != last {
          assert f in init;
        }
      }
    }
  }

  function OfTenant(tenantId: Id): Flag -> bool
  {
    (f: Flag) => f.tenantId == tenantId
  }

  /** The map `getFlags` computes from the table for one tenant. */
  function FlagMapOf(flags: seq<Flag>, tenantId: Id): (m: FlagMap)
    ensures forall k :: k in m <==> exists f :: f in flags && f.tenantId == tenantId && f.key == k
  {
    FoldFlags(Store.Filter(flags, OfTenant(tenantId)))
  }

  /** (tenantId, key) is unique along the table. */
  ghost predicate TenantKeysUnique(flags: seq<Flag>)
  {
    forall i, j :: 0 <= i < j < |flags| ==>
      flags[i].tenantId != flags[j].tenantId || flags[i].key != flags[j].key
  }

  /** With unique (tenantId, key), the tenant's map holds exactly the
      tenant's flags, each under its own key. */
  lemma FlagMapOfUnique(flags: seq<Flag>, tenantId: Id)
    requires TenantKeysUnique(flags)
    ensures forall f :: f in flags && f.tenantId == tenantId ==> FlagMapOf(flags, tenantId)[f.key] == View(f)
  {
    var mine := Store.Filter(flags, OfTenant(tenantId));
    forall f, g | f in mine && g in mine && f.key == g.key ensures f == g {
      var i :| 0 <= i < |flags| && flags[i] == f;
      var j :| 0 <= j < |flags| && flags[j] == g;
      assert i == j || !(i < j || j < i);
    }
    FoldFlagsUnique(mine);
  }

  /** The decision of `isEnabled` on a tenant's map: absent or disabled is
      off, an empty role list admits every role, otherwise the role must be
      listed. */
  function Decide(m: FlagMap, key: string, userRole: string): (on: bool)
    ensures !(key in m) ==> !on
    ensures key in m && !m[key].enabled ==> !on
    ensures key in m && m[key].enabled && m[key].roles == [] ==> on
    ensures key in m && m[key].enabled && m[key].roles != [] ==> (on <==> userRole in m[key].roles)
  {
    if key !in m || !m[key].enabled then false
    else if |m[key].roles| == 0 then true
    else userRole in m[key].roles
  }

  function Keyed(tenantId: Id, key: string): Flag -> bool
  {
    (f: Flag) => f.tenantId == tenantId && f.key == key
  }

  class FeatureStore {
    var flags: seq<Flag>
    /** The cached map of each tenant (the `flags:<tenantId>` entries). */
    var cache: map<Id, FlagMap>
    var nextId: nat

    /** (tenantId, key) is unique, ids are below the counter, and every cached
        map is the one the table gives. */
    ghost predicate Valid()
      reads this
    {
      && TenantKeysUnique(flags)
      && (forall f :: f in flags ==> f.id < nextId)
      && (forall t :: t in cache ==> cache[t] == FlagMapOf(flags, t))
    }

    constructor ()
      ensures Valid() && flags == [] && cache == map[]
    {
      flags := [];
      cache := map[];
      nextId := 0;
    }

    /** `getFlags`: a cached map is answered as it is; otherwise the tenant's
        flags are folded into a map, which is cached. */
    method GetFlags(tenantId: Id) returns (m: FlagMap)
      requires Valid()
      modifies this
      ensures Valid() && flags == old(flags)
      ensures tenantId in old(cache) ==> m == old(cache)[tenantId] && cache == old(cache)
      ensures tenantId !in old(cache) ==> cache == old(cache)[tenantId := m]
      ensures m == FlagMapOf(flags, tenantId)
    {
      if tenantId in cache {
        return cache[tenantId];
      }
      var rows := Store.Filter(flags, OfTenant(tenantId));
      m := BuildFlagMap(rows);
      cache := cache[tenantId := m];
    }

    /** `isEnabled`: on exactly when the tenant has an enabled flag under the
        key whose role list is empty or names the role. */
    method IsEnabled(tenantId: Id, key: string, userRole: string) returns (on: bool)
      requires Valid()
      modifies this
      ensures Valid() && flags == old(flags)
      ensures on <==> exists f :: f in flags && f.tenantId == tenantId && f.key == key
                                  && f.enabled && (f.roles == [] || userRole in f.roles)
    {
      var m := GetFlags(tenantId);
      DecideOnTable(flags, tenantId, key, userRole);
      on := Decide(m, key, userRole);
    }

    /** `setFlag`: creates or updates the flag of (tenantId, key), with the
        roles defaulting to none, and drops the tenant's cached map. */
    method SetFlag(tenantId: Id, key: string, enabled: bool, roles: Option<seq<string>>) returns (f: Flag)
      requires Valid()
      modifies this
      ensures Valid()
      ensures f.tenantId == tenantId && f.key == key && f.enabled == enabled
      ensures f.roles == (if roles.Some? then roles.value else [])
      ensures Upserted(old(flags), flags, f)
      ensures FlagMapOf(flags, tenantId) == FlagMapOf(old(flags), tenantId)[key := View(f)]
      ensures cache == old(cache) - {tenantId}
    {
      var rs := if roles.Some? then roles.value else [];
      var found := Store.FindFirst(flags, Keyed(tenantId, key));
      ghost var before := flags;
      if found.Some? {
        var k := found.value;
        f := flags[k].(enabled := enabled, roles := rs);
        UpdateKeepsUnique(flags, k, f);
        flags := flags[k := f];
      } else {
        f := Flag(nextId, tenantId, key, enabled, rs);
        AppendKeepsUnique(flags, f);
        flags := flags + [f];
        nextId := nextId + 1;
      }
      WriteShowsInTenantMap(before, flags, f);
      cache := cache - {tenantId};
      forall t | t in cache ensures cache[t] == FlagMapOf(flags, t) {
        OtherTenantUnchanged(before, flags, tenantId, key, t);
      }
    }
  }

  /** Two flags of a table with unique (tenantId, key) that agree on both are
      the same flag. */
  lemma SameTenantKey(flags: seq<Flag>, f: Flag, g: Flag)
    requires TenantKeysUnique(flags)
    requires f in flags && g in flags && f.tenantId == g.tenantId && f.key == g.key
    ensures f == g
  {
    var i :| 0 <= i < |flags| && flags[i] == f;
    var j :| 0 <= j < |flags| && flags[j] == g;
    assert i == j || !(i < j || j < i);
  }

  /** `isEnabled` read off the table instead of the map. */
  lemma DecideOnTable(flags: seq<Flag>, tenantId: Id, key: string, userRole: string)
    requires TenantKeysUnique(flags)
    ensures Decide(FlagMapOf(flags, tenantId), key, userRole) <==>
      exists f :: f in flags && f.tenantId == tenantId && f.key == key
                  && f.enabled && (f.roles == [] || userRole in f.roles)
  {
    var m := FlagMapOf(flags, tenantId);
    FlagMapOfUnique(flags, tenantId);
    if key in m {
      var f :| f in flags && f.tenantId == tenantId && f.key == key;
      forall g | g in flags && g.tenantId == tenantId && g.key == key ensures g == f {
        SameTenantKey(flags, f, g);
      }
    }
  }

  /** The effect of an upsert of `f`: it is the only flag under its
      (tenantId, key), and every flag under another pair is kept. */
  ghost predicate Upserted(before: seq<Flag>, after: seq<Flag>, f: Flag)
  {
    && f in after
    && (forall g :: g in after && Keyed(f.tenantId, f.key)(g) ==> g == f)
    && (forall g :: g in after && !Keyed(f.tenantId, f.key)(g) <==> g in before && !Keyed(f.tenantId, f.key)(g))
  }

  lemma UpdateKeepsUnique(before: seq<Flag>, k: nat, f: Flag)
    requires TenantKeysUnique(before)
    requires k < |before| && f.tenantId == before[k].tenantId && f.key == before[k].key
    ensures TenantKeysUnique(before[k := f]) && Upserted(before, before[k := f], f)
  {
    var after := before[k := f];
    forall i | 0 <= i < |after|
      ensures after[i].tenantId == before[i].tenantId && after[i].key == before[i].key
    {
    }
    forall g | g in after && Keyed(f.tenantId, f.key)(g) ensures g == f {
      var j :| 0 <= j < |after| && after[j] == g;
    }
    forall g | g in before && !Keyed(f.tenantId, f.key)(g) ensures g in after {
      var j :| 0 <= j < |before| && before[j] == g;
      assert after[j] == g;
    }
  }

  lemma AppendKeepsUnique(before: seq<Flag>, f: Flag)
    requires TenantKeysUnique(before)
    requires forall k :: 0 <= k < |before| ==> !Keyed(f.tenantId, f.key)(before[k])
    ensures TenantKeysUnique(before + [f]) && Upserted(before, before + [f], f)
  {
    var after := before + [f];
    forall g | g in after && Keyed(f.tenantId, f.key)(g) ensures g == f {
      var j :| 0 <= j < |after| && after[j] == g;
    }
  }

  /** A write to one (tenantId, key) leaves every other tenant's map alone. */
  lemma OtherTenantUnchanged(before: seq<Flag>, after: seq<Flag>, tenantId: Id, key: string, other: Id)
    requires other != tenantId
    requires TenantKeysUnique(before) && TenantKeysUnique(after)
    requires forall g :: g in after && !Keyed(tenantId, key)(g) <==> g in before && !Keyed(tenantId, key)(g)
    ensures FlagMapOf(after, other) == FlagMapOf(before, other)
  {
    FlagMapOfUnique(before, other);
    FlagMapOfUnique(after, other);
    var m1, m2 := FlagMapOf(before, other), FlagMapOf(after, other);
    forall k | k in m1 ensures k in m2 && m2[k] == m1[k] {
      var f :| f in before && f.tenantId == other && f.key == k;
    }
    forall k | k in m2 ensures k in m1 {
      var f :| f in after && f.tenantId == other && f.key == k;
    }
  }

  /** After a write the tenant's map is the old one with the key set to the
      new setting. */
  lemma WriteShowsInTenantMap(before: seq<Flag>, after: seq<Flag>, f: Flag)
    requires TenantKeysUnique(before) && TenantKeysUnique(after)
    requires Upserted(before, after, f)
    ensures FlagMapOf(after, f.tenantId) == FlagMapOf(before, f.tenantId)[f.key := View(f)]
  {
    FlagMapOfUnique(before, f.tenantId);
    FlagMapOfUnique(after, f.tenantId);
    var m1, m2 := FlagMapOf(before, f.tenantId)[f.key := View(f)], FlagMapOf(after, f.tenantId);
    forall k | k in m1 ensures k in m2 && m2[k] == m1[k] {
      if k != f.key {
        var g :| g in before && g.tenantId == f.tenantId && g.key == k;
      }
    }
    forall k | k in m2 ensures k in m1 {
      var g :| g in after && g.tenantId == f.tenantId && g.key == k;
    }
  }
}
