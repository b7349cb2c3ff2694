/** The transactions of the control plane as they run: each reads a row, assigns fields and writes it back. */
module ControlPlane {
  import opened Common
  import opened Model
  import opened Difference
  import opened Sources

  class Plane {
    var sources: map<Id, Source>
    var revisions: map<Id, Revision>
    var headers: map<Id, Headers>
    var deleted: set<Id>

    constructor ()
      ensures State() == DB(map[], map[], map[], {})
    {
      sources, revisions, headers, deleted := map[], map[], map[], {};
    }

    function State(): DB
      reads this
    {
      DB(sources, revisions, headers, deleted)
    }

    /** A transaction with the stated result either committed it or reported its error and changed nothing. */
    predicate Ends(was: DB, r: Result<DB, Error>, e: Option<Error>)
      reads this
    {
      match r
      case Ok(after) => e == None && State() == after
      case Err(why) => e == Some(why) && State() == was
    }

    method Import(env: Env, id: Id, protocol: string, url: string, catalogId: Id, settings: Settings,
                  revId: Id, hash: string, n: Normalized, h: Option<Headers>, stamp: Stamp) returns (e: Option<Error>)
      requires id !in sources && revId !in revisions
      modifies this
      ensures var src := NewSource(protocol, url, catalogId, settings, revId, stamp);
              Ends(old(State()), Admitted(old(State()), env, id, src, revId, hash, n, h), e)
    {
      var src := NewSource(protocol, url, catalogId, settings, revId, stamp);
      if catalogId == "" && !env.accepts(src) { return Some(InvalidSettings); }
      sources := sources[id := src];
      revisions := revisions[revId := Revision(id, hash, n, Staged)];
      if h.Some? {
        headers := headers[id := h.value];
      }
      e := None;
    }

    method EditSource(env: Env, id: Id, ed: Edit, stamp: Stamp) returns (e: Option<Error>)
      modifies this
      ensures Ends(old(State()), Edited(old(State()), env, id, ed, stamp), e)
    {
      if id !in sources { return Some(NotFound); }
      var v := sources[id];
      if ed.protocol != "" && ed.protocol != v.protocol { return Some(ProtocolChange); }
      if ed.url != v.url { return Some(EndpointChange); }
      var s := ApplyEdit(v.settings, ed);
      v := v.(settings := s, nextProbe := 0);
      if !env.accepts(v) { return Some(InvalidSettings); }
      v := v.(updatedAt := stamp);
      if v.health != Health.Disabled && v.health != Quarantined {
        v := v.(health := Unknown, score := 0);
      }
      if ed.headers.Some? { headers := headers[id := ed.headers.value]; }
      sources := sources[id := v];
      e := None;
    }

    static method ApplyEdit(was: Settings, ed: Edit) returns (s: Settings)
      ensures s == EditedSettings(was, ed)
    {
      s := was.(name := ed.name, trust := ed.trust, network := ed.network);
      if ed.proxyId.Some? { s := s.(proxyId := ed.proxyId.value); }
      if ed.hubProxyMode.Some? { s := s.(hubProxyMode := ed.hubProxyMode.value); }
      s := s.(policy := ed.policy, intervalMinutes := ed.intervalMinutes, probeMinutes := ed.probeMinutes,
              smokeKeyword := ed.smokeKeyword, hubPluginId := ed.hubPluginId, runtimeId := ed.runtimeId);
      if ed.mode != "" { s := s.(mode := ed.mode); }
      if |ed.mediaTypes| > 0 { s := s.(mediaTypes := ed.mediaTypes); }
    }

    method SetHeaders(id: Id, h: Headers, stamp: Stamp) returns (e: Option<Error>)
      modifies this
      ensures Ends(old(State()), Rekeyed(old(State()), id, h, stamp), e)
    {
      if id !in sources { return Some(NotFound); }
      var src := sources[id].(updatedAt := stamp);
      if src.health != Health.Disabled && src.health != Quarantined {
        src := src.(health := Unknown, score := 0);
      }
      sources := sources[id := src];
      headers := headers[id := h];
      e := None;
    }

    method SourceAction(id: Id, a: Action, requested: Id, stamp: Stamp) returns (e: Option<Error>)
      modifies this
      ensures Ends(old(State()), Acted(old(State()), id, a, requested, stamp), e)
    {
      if id !in sources { return Some(NotFound); }
      var v := sources[id];
      match a {
        case Approve | ApproveEnable | Rollback =>
          var revision := requested;
          if a == ApproveEnable && (revision == "" || revision != v.staged) { return Some(StagedChanged); }
          if revision == "" { revision := v.staged; }
          if revision !in revisions { return Some(NotFound); }
          var r := revisions[revision];
          if r.sourceId != id { return Some(ForeignRevision); }
          if r.status == Invalid { return Some(InvalidRevision); }
          if a == ApproveEnable && r.status != Staged { return Some(NotStaged); }
          if a == Rollback && r.status != Approved { return Some(NotApproved); }
          revisions := revisions[revision := r.(status := Approved)];
          v := v.(active := revision);
          if revision == v.staged { v := v.(staged := ""); }
          if a == Rollback { v := v.(settings := v.settings.(policy := Pinned)); }
          if v.health != Quarantined && v.health != Health.Disabled { v := v.(health := Degraded, score := 60); }
          if a == ApproveEnable {
            v := v.(enabled := true);
            if v.health == Health.Disabled { v := v.(health := Degraded, score := 60); }
          }
        case Reject =>
          if v.staged == "" { return Some(NothingStaged); }
          if v.staged !in revisions { return Some(NotFound); }
          revisions := revisions[v.staged := revisions[v.staged].(status := Rejected)];
          v := v.(staged := "");
        case Enable =>
          if v.active == "" { return Some(NoActive); }
          v := v.(enabled := true);
          if v.health == Health.Disabled { v := v.(health := Unknown, score := 0); }
        case Disable =>
          v := v.(enabled := false, health := Health.Disabled);
        case Quarantine =>
          v := v.(health := Quarantined, score := 0);
        case Release =>
          if v.health != Quarantined { return Some(NotQuarantined); }
          v := v.(health := Unknown, failures := 0, score := 0);
      }
      sources := sources[id := v.(updatedAt := stamp)];
      e := None;
    }

    /** inUse says whether, once it is out of the aggregates, some set still has the source
        as a member (Aggregates.Do). */
    method DeleteSource(id: Id, inUse: bool) returns (e: Option<Error>)
      modifies this
      ensures Ends(old(State()), if id in old(sources) && inUse then Err(InUse) else Removed(old(State()), id), e)
    {
      if id !in sources { return Some(NotFound); }
      if inUse { return Some(InUse); }
      sources := sources - {id};
      revisions := map r | r in revisions && revisions[r].sourceId != id :: revisions[r];   // ON DELETE CASCADE
      headers := headers - {id};
      e := None;
    }

    /** inUse says whether some set other than an aggregate has the source as a member. */
    method SoftDeleteSource(id: Id, inUse: bool, stamp: Stamp) returns (e: Option<Error>)
      modifies this
      ensures Ends(old(State()),
                   if id in old(sources) && inUse then Err(InUse) else SoftDeleted(old(State()), id, stamp), e)
    {
      if id !in sources { return Some(NotFound); }
      if inUse { return Some(InUse); }
      var src := sources[id].(enabled := false, health := Health.Disabled, updatedAt := stamp);
      deleted := deleted + {id};
      sources := sources[id := src];
      e := None;
    }

    method UndoDeleteSource(id: Id, stamp: Stamp) returns (e: Option<Error>)
      modifies this
      ensures Ends(old(State()), Undeleted(old(State()), id, stamp), e)
    {
      if id !in deleted || id !in sources { return Some(NotFound); }
      deleted := deleted - {id};
      sources := sources[id := sources[id].(updatedAt := stamp)];
      e := None;
    }

    static method ScheduleRow(was: Source, now: int) returns (src: Source)
      ensures src == Scheduled(was, now)
    {
      src := was;
      var reprobe := src.enabled && src.active != "" && (src.settings.probeMinutes > 0 || src.health == Avoid);
      if reprobe && src.nextProbe <= now {
        var interval := src.settings.probeMinutes;
        if interval == 0 { interval := 30; }
        src := src.(nextProbe := now + interval * MINUTE);
      }
      if !src.enabled || src.url == "" || src.settings.policy == Pinned || src.settings.policy == Manual
        || src.nextSync > now {
        return;
      }
      src := src.(nextSync := now + src.settings.intervalMinutes * MINUTE);
    }

    method Schedule(now: int)
      modifies this
      ensures State() == Ticked(old(State()), now)
    {
      ghost var was := sources;
      var rest := sources.Keys;
      while rest != {}
        invariant rest <= was.Keys && sources.Keys == was.Keys
        invariant forall id | id in was :: sources[id] == if id in rest then was[id] else Scheduled(was[id], now)
        invariant revisions == old(revisions) && headers == old(headers) && deleted == old(deleted)
        decreases rest
      {
        var id :| id in rest;
        rest := rest - {id};
        var src := ScheduleRow(sources[id], now);
        sources := sources[id := src];
      }
    }

    /** The scan of SyncSource for a body already active, rejected or waiting. */
    method IsKnown(id: Id, v: Source, hash: string) returns (same: bool)
      requires v.active == "" || v.active in revisions
      requires v.staged == "" || v.staged in revisions
      ensures same <==> KnownHash(State(), id, v, hash)
    {
      same := v.active != "" && revisions[v.active].hash == hash;
      ghost var active := same;
      var rest := revisions.Keys;
      while rest != {}
        invariant rest <= revisions.Keys
        invariant same <==> active || exists r | r in revisions.Keys - rest ::
          revisions[r].sourceId == id && revisions[r].hash == hash && revisions[r].status == Rejected
        decreases rest
      {
        var r :| r in rest;
        rest := rest - {r};
        if revisions[r].sourceId == id && revisions[r].hash == hash && revisions[r].status == Rejected {
          same := true;
          assert r in revisions.Keys - rest;
        }
      }
      assert revisions.Keys - rest == revisions.Keys;
      if v.staged != "" {
        same := same || revisions[v.staged].hash == hash;
      }
    }

    static method Refresh(was: Source, r: Response, now: int) returns (v: Source)
      ensures v == Refreshed(was, r, now)
    {
      v := was.(lastChecked := now, nextSync := now + was.settings.intervalMinutes * MINUTE);
      if !r.notModified || r.etag != "" { v := v.(etag := r.etag); }
      if !r.notModified || r.lastModified != "" { v := v.(lastModified := r.lastModified); }
    }

    method FinishSync(env: Env, id: Id, read: Stamp, f: Fetched, revId: Id, now: int, stamp: Stamp)
      returns (e: Option<Error>)
      modifies this
      ensures Ends(old(State()), CommitSync(old(State()), env, id, read, f, revId, now, stamp), e)
    {
      if id !in sources { return Some(NotFound); }
      var v := sources[id];
      if v.updatedAt != read { return Some(Conflict); }
      v := Refresh(v, f.response, now);
      if f.hash != "" {
        var prior := NOTHING;
        if v.active != "" {
          if v.active !in revisions { return Some(NotFound); }
          prior := revisions[v.active].normalized;
        }
        if v.staged != "" && v.staged !in revisions { return Some(NotFound); }
        var same := IsKnown(id, sources[id], f.hash);
        if !same {
          var diff := Compare(env.host, prior.items, f.parsed.items);
          var r := Revision(id, f.hash, f.parsed, Staged);
          if v.settings.policy == Auto && !diff.requiresReview && v.active != "" && v.health != Quarantined
             && f.sample.Some? && f.sample.value.success && f.sample.value.functional {
            r := r.(status := Approved);
            v := v.(active := revId, staged := "");
          } else {
            v := v.(staged := revId);
          }
          revisions := revisions[revId := r];
        }
      }
      sources := sources[id := v.(updatedAt := stamp)];
      e := None;
    }

    method SaveProbe(id: Id, read: Source, p: Probe, now: int, stamp: Stamp) returns (e: Option<Error>)
      modifies this
      ensures Ends(old(State()), CommitProbe(old(State()), id, read, p, now, stamp), e)
    {
      if id !in sources { return Some(NotFound); }
      var v := sources[id];
      if v.updatedAt != read.updatedAt || v.active != read.active || v.settings.runtimeId != read.settings.runtimeId {
        return Some(Conflict);
      }
      v := v.(lastChecked := now);
      if p.success {
        v := v.(failures := 0);
        if v.health != Quarantined && v.health != Health.Disabled {
          v := v.(health := Healthy, score := 100);
          if !p.functional { v := v.(health := Degraded, score := 60); }
        }
      } else {
        v := v.(failures := v.failures + 1);
        if v.health != Health.Disabled && v.health != Quarantined {
          v := v.(score := if 60 - v.failures * 20 > 0 then 60 - v.failures * 20 else 0, health := Degraded);
          if v.failures >= 2 { v := v.(health := Failing); }
          if v.failures >= 3 { v := v.(health := Avoid, nextProbe := now + 30 * MINUTE); }
        }
      }
      sources := sources[id := v.(updatedAt := stamp)];
      e := None;
    }

    method FinishStage(id: Id, read: Stamp, hash: string, n: Normalized, revId: Id, stamp: Stamp)
      returns (e: Option<Error>)
      modifies this
      ensures Ends(old(State()), CommitStage(old(State()), id, read, hash, n, revId, stamp), e)
    {
      if id !in sources { return Some(NotFound); }
      var current := sources[id];
      if current.updatedAt != read { return Some(Conflict); }
      if current.active != "" && current.active !in revisions { return Some(NotFound); }
      if current.staged != "" {
        if current.staged !in revisions { return Some(NotFound); }
        if revisions[current.staged].hash == hash { return None; }
      }
      if current.active != "" && revisions[current.active].hash == hash { return Some(Identical); }
      revisions := revisions[revId := Revision(id, hash, n, Staged)];
      sources := sources[id := current.(staged := revId, updatedAt := stamp)];
      e := None;
    }
  }
}
