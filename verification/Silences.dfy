/** Silences: what they suppress, and the search for one. */
module Silences {
  import opened Prelude
  import opened Labels

  /** Go's zero time, in nanoseconds like every time here. */
  const ZERO_TIME := -62135596800_000_000_000

  datatype Silence = Silence(
    id: string,
    tenant: string,
    ruleID: string,
    scope: string,
    matchers: LabelMap,
    startsAt: int,
    endsAt: int,
    active: bool,
    createdAt: int,
    updatedAt: int)

  function Normalize(s: Silence, freshID: string, now: int): (r: Result<Silence>)
    ensures r.Ok? ==> r.value.startsAt < r.value.endsAt && r.value.active && r.value.tenant != ""
    ensures r.Ok? ==>
      && r.value.ruleID == s.ruleID && r.value.scope == s.scope && r.value.matchers == s.matchers
      && r.value.endsAt == s.endsAt && r.value.startsAt in {s.startsAt, now} && r.value.updatedAt == now
      && (s.tenant != "" ==> r.value.tenant == s.tenant) && (s.id != "" ==> r.value.id == s.id)
    ensures r.Err? <==> s.endsAt == ZERO_TIME || s.endsAt <= if s.startsAt == ZERO_TIME then now else s.startsAt
  {
    var startsAt := if s.startsAt == ZERO_TIME then now else s.startsAt;
    if s.endsAt == ZERO_TIME || s.endsAt <= startsAt then Err(Invalid) else
      Ok(s.(id := if s.id == "" then freshID else s.id,
            tenant := if s.tenant == "" then "default" else s.tenant,
            startsAt := startsAt,
            createdAt := if s.createdAt == ZERO_TIME then now else s.createdAt,
            updatedAt := now,
            active := true))
  }

  /** The silence is in force at `at` and covers the rule, scope and labels. */
  ghost predicate Suppresses(s: Silence, ruleID: string, scope: string, labels: LabelMap, at: int) {
    && s.active && s.startsAt < at < s.endsAt
    && (s.ruleID == "" || s.ruleID == ruleID)
    && (s.scope == "" || s.scope == scope)
    && Matching(labels, s.matchers)
  }

  method Matches(s: Silence, ruleID: string, scope: string, labels: LabelMap, at: int) returns (r: bool)
    ensures r <==> Suppresses(s, ruleID, scope, labels, at)
  {
    if s.active && at < s.endsAt && at > s.startsAt {
      if s.ruleID != "" && s.ruleID != ruleID {
        return false;
      }
      if s.scope != "" && s.scope != scope {
        return false;
      }
      if |s.matchers| > 0 {
        r := Match(labels, s.matchers);
        return;
      }
      return true;
    }
    return false;
  }

  /** Both ends are excluded, so a silence can take effect at some instant exactly when it is
      longer than a nanosecond: Normalize lets a shorter one in that never does. */
  lemma EffectiveWhenLongEnough(s: Silence, ruleID: string, scope: string, labels: LabelMap)
    requires s.active && s.ruleID in {"", ruleID} && s.scope in {"", scope} && Matching(labels, s.matchers)
    ensures (exists at :: Suppresses(s, ruleID, scope, labels, at)) <==> s.startsAt + 1 < s.endsAt
  {
    if s.startsAt + 1 < s.endsAt {
      assert Suppresses(s, ruleID, scope, labels, s.startsAt + 1);
    }
  }

  // ---------------------------------------------------------------- the table

  /** The WHERE clause of ListActive. */
  predicate Current(s: Silence, tenant: string, at: int) {
    s.tenant == tenant && s.active && s.startsAt <= at && s.endsAt > at
  }

  class PGRepository {
    var rows: map<string, Silence>

    constructor ()
      ensures rows == map[]
    {
      rows := map[];
    }

    ghost predicate Keyed()
      reads this
    {
      forall id :: id in rows ==> rows[id].id == id
    }

    /** What other sessions made of the table, between two statements of this one. */
    method Meanwhile(rows': map<string, Silence>)
      requires forall id :: id in rows' ==> rows'[id].id == id
      modifies this
      ensures Keyed() && rows == rows'
    {
      rows := rows';
    }

    method Create(s: Silence, fate: Fate) returns (r: Result<Silence>)
      requires Keyed()
      modifies this
      ensures Keyed()
      ensures r == if fate == Fine && s.id !in old(rows) then Ok(s) else Err(Storage)
      ensures rows == if fate != Lost && s.id !in old(rows) then old(rows)[s.id := s] else old(rows)
    {
      if fate == Lost || s.id in rows {
        return Err(Storage);
      }
      rows := rows[s.id := s];
      return if fate == Fine then Ok(s) else Err(Storage);
    }

    /** Everything but id, tenant and creation time is replaced, unchecked. */
    method Update(s: Silence, fate: Fate) returns (r: Result<Silence>)
      requires Keyed()
      modifies this
      ensures Keyed()
      ensures r == if fate != Fine then Err(Storage)
                   else if s.id in old(rows) && old(rows)[s.id].tenant == s.tenant then Ok(s) else Err(NotFound)
      ensures rows == if fate != Lost && s.id in old(rows) && old(rows)[s.id].tenant == s.tenant
                      then old(rows)[s.id := s.(createdAt := old(rows)[s.id].createdAt)] else old(rows)
    {
      if fate == Lost {
        return Err(Storage);
      }
      if s.id !in rows || rows[s.id].tenant != s.tenant {
        return if fate == Fine then Err(NotFound) else Err(Storage);
      }
      var row := rows[s.id];
      rows := rows[s.id := row.(ruleID := s.ruleID, scope := s.scope, matchers := s.matchers, startsAt := s.startsAt,
                                endsAt := s.endsAt, active := s.active, updatedAt := s.updatedAt)];
      return if fate == Fine then Ok(s) else Err(Storage);
    }

    method ListActive(tenant: string, at: int, lost: bool) returns (r: Result<seq<Silence>>)
      ensures r.Err? <==> lost
      ensures r.Ok? ==> forall s :: s in r.value <==> exists id :: id in rows && rows[id] == s && Current(s, tenant, at)
    {
      if lost {
        return Err(Storage);
      }
      var items: seq<Silence> := [];
      var rest := rows.Keys;
      while rest != {}
        invariant rest <= rows.Keys
        invariant forall s :: s in items <==>
          exists id :: id in rows && id !in rest && rows[id] == s && Current(s, tenant, at)
        decreases rest
      {
        var id :| id in rest;
        if Current(rows[id], tenant, at) {
          items := items + [rows[id]];
        }
        rest := rest - {id};
      }
      return Ok(items);
    }
  }

  class Service {
    const repo: PGRepository

    constructor (repo: PGRepository)
      ensures this.repo == repo
    {
      this.repo := repo;
    }

    method Create(s: Silence, freshID: string, now: int, fate: Fate) returns (r: Result<Silence>)
      requires repo.Keyed()
      modifies repo
      ensures repo.Keyed()
      ensures r.Ok? ==> Normalize(s, freshID, now) == r && repo.rows == old(repo.rows)[r.value.id := r.value]
      ensures r.Err? && fate != Unacked ==> repo.rows == old(repo.rows)
    {
      var normalized := Normalize(s, freshID, now);
      if normalized.Err? {
        return normalized;
      }
      r := repo.Create(normalized.value, fate);
    }

    method Update(s: Silence, now: int, fate: Fate) returns (r: Result<Silence>)
      requires repo.Keyed()
      modifies repo
      ensures repo.Keyed()
      ensures r.Ok? ==>
        && s.id in old(repo.rows)
        && repo.rows == old(repo.rows)[s.id := s.(updatedAt := now, createdAt := old(repo.rows)[s.id].createdAt)]
      ensures r.Err? && fate != Unacked ==> repo.rows == old(repo.rows)
    {
      r := repo.Update(s.(updatedAt := now), fate);
    }

    /** The prefilter loses nothing: the answer is that of a scan of all the tenant's silences. */
    method IsSilenced(tenant: string, ruleID: string, scope: string, labels: LabelMap, at: int, lost: bool)
      returns (r: Result<bool>)
      ensures r.Err? <==> lost
      ensures r.Ok? ==> (r.value <==> Silenced(repo.rows, tenant, ruleID, scope, labels, at))
    {
      var silences := repo.ListActive(tenant, at, lost);
      if silences.Err? {
        return Err(silences.error);
      }
      for i := 0 to |silences.value|
        invariant forall j :: 0 <= j < i ==> !Suppresses(silences.value[j], ruleID, scope, labels, at)
      {
        var found := Matches(silences.value[i], ruleID, scope, labels, at);
        if found {
          assert silences.value[i] in silences.value;
          ghost var id :| id in repo.rows && repo.rows[id] == silences.value[i];
          assert Covers(repo.rows[id], tenant, ruleID, scope, labels, at);
          return Ok(true);
        }
      }
      NotSilenced(repo.rows, silences.value, tenant, ruleID, scope, labels, at);
      return Ok(false);
    }
  }

  ghost predicate Silenced(rows: map<string, Silence>, tenant: string, ruleID: string, scope: string, labels: LabelMap,
                           at: int) {
    exists id :: id in rows && Covers(rows[id], tenant, ruleID, scope, labels, at)
  }

  /** A silence of the tenant that is switched on, has begun and has not ended, and names no other
      rule, no other scope and no label entry that the alert lacks. */
  ghost predicate Covers(s: Silence, tenant: string, ruleID: string, scope: string, labels: LabelMap, at: int) {
    && s.tenant == tenant && s.active && s.startsAt < at && at < s.endsAt
    && s.ruleID in {"", ruleID} && s.scope in {"", scope}
    && forall k :: k in s.matchers ==> k in labels && labels[k] == s.matchers[k]
  }

  lemma NotSilenced(rows: map<string, Silence>, listed: seq<Silence>, tenant: string, ruleID: string, scope: string,
                    labels: LabelMap, at: int)
    requires forall s :: s in listed <==> exists id :: id in rows && rows[id] == s && Current(s, tenant, at)
    requires forall j :: 0 <= j < |listed| ==> !Suppresses(listed[j], ruleID, scope, labels, at)
    ensures !Silenced(rows, tenant, ruleID, scope, labels, at)
  {
    forall id | id in rows
      ensures !Covers(rows[id], tenant, ruleID, scope, labels, at)
    {
      if Current(rows[id], tenant, at) {
        assert rows[id] in listed;
      }
    }
  }
}
