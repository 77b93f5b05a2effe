/** The Supervisor as an object: one record per service, updated in place. */
module SupervisorRuntime {
  import opened Words
  import opened SupervisorModel

  class ServiceRecord {
    var state: State
    var generation: nat
    var sequence: nat
    var nonce: Option<string>
    var started: Option<int>
    var lastHeartbeat: Option<int>
    var attempts: nat
    var due: Option<int>
    var handles: seq<Handle>

    constructor ()
      ensures View() == Idle()
    {
      state, generation, sequence, nonce, started, lastHeartbeat, attempts, due, handles :=
        Exit, 0, 0, None, None, None, 0, None, [];
    }

    function View(): Service
      reads this
    {
      Service(state, generation, sequence, nonce, started, lastHeartbeat, attempts, due, handles)
    }

    /** The next generation, waiting for its due time. */
    method Renew(nonce: string, due: int)
      modifies this
      ensures View() == old(View()).(state := Restarting, generation := old(generation) + 1, nonce := Some(nonce),
                                     attempts := old(attempts) + 1, due := Some(due))
    {
      attempts, generation := attempts + 1, generation + 1;
      this.nonce, this.due := Some(nonce), Some(due);
      state := Restarting;
    }
  }

  class Supervisor {
    const env: Setting
    const services: map<Id, ServiceRecord>
    var revoked: set<Handle>
    var grants: map<Handle, Grant>
    var frozen: set<Id>
    var lastMonotonic: int
    var readings: nat
    var nonces: nat
    ghost var log: seq<Event>

    ghost predicate Valid() {
      && Wellformed(env) && services.Keys == env.manifests.Keys
      && forall a, b | a in services && b in services :: services[a] == services[b] ==> a == b
    }

    function Of(id: Id): ServiceRecord
      requires id in services
    {
      services[id]
    }

    ghost function Records(): set<ServiceRecord> {
      set id <- services :: services[id]
    }

    ghost function ServiceMap(): (m: map<Id, Service>)
      reads Records()
      ensures m.Keys == services.Keys
    {
      map id <- services :: services[id].View()
    }

    ghost function View(): SupervisorModel.Supervisor
      reads this, Records()
    {
      SupervisorModel.Supervisor(ServiceMap(), revoked, grants, frozen, lastMonotonic, readings, nonces, log)
    }

    static method MakeRecords(ids: set<Id>) returns (made: map<Id, ServiceRecord>)
      ensures made.Keys == ids
      ensures forall a, b | a in made && b in made :: made[a] == made[b] ==> a == b
      ensures forall a <- made :: fresh(made[a]) && made[a].View() == Idle()
    {
      made := map[];
      var left := ids;
      while left != {}
        invariant left <= ids && made.Keys == ids - left
        invariant forall a, b | a in made && b in made :: made[a] == made[b] ==> a == b
        invariant forall a <- made :: fresh(made[a]) && made[a].View() == Idle()
        decreases |left|
      {
        var id :| id in left;
        var record := new ServiceRecord();
        made := made[id := record];
        left := left - {id};
      }
    }

    constructor (env: Setting)
      requires Wellformed(env)
      ensures Valid() && this.env == env && View() == Initial(env)
      ensures fresh(Records())
    {
      hide Wellformed;
      var made := MakeRecords(env.manifests.Keys);
      this.env, services := env, made;
      revoked, grants, frozen, lastMonotonic, readings, nonces, log := {}, map[], {}, 0, 0, 0, [];
      new;
      assert ServiceMap() == map id <- env.manifests :: Idle();
    }

    lemma Lookup(id: Id)
      requires id in services
      ensures View().services[id] == services[id].View()
    {
    }

    /** Only the record of `id` changed. */
    twostate lemma OnlyThis(id: Id)
      requires Valid() && id in services
      requires forall other <- services :: other != id ==> old(allocated(services[other])) && unchanged(services[other])
      ensures ServiceMap() == old(ServiceMap())[id := services[id].View()]
      ensures id in old(ServiceMap()) && old(ServiceMap())[id] == old(services[id].View())
    {
      forall other <- services
        ensures ServiceMap()[other] == if other == id then services[id].View() else old(ServiceMap())[other]
      {
        if other != id {
          assert services[other].View() == old(services[other].View());
        }
      }
    }

    method ReadClock() returns (now: int)
      modifies this`readings
      ensures now == env.clock(old(readings)) && readings == old(readings) + 1 && ServiceMap() == old(ServiceMap())
    {
      now := env.clock(readings);
      readings := readings + 1;
    }

    method NewNonce() returns (nonce: string)
      modifies this`nonces
      ensures nonce == env.nonce(old(nonces)) && nonces == old(nonces) + 1
    {
      nonce := env.nonce(nonces);
      nonces := nonces + 1;
    }

    method Emit(id: Id, kind: EventKind, x: Extra)
      requires Valid() && id in services
      modifies this`lastMonotonic, this`readings, this`log, Of(id)`sequence
      ensures View() == SupervisorModel.Emit(env, old(View()), id, kind, x)
      ensures services[id].View() == old(services[id].View()).(sequence := old(services[id].sequence) + 1)
    {
      hide Wellformed, ServiceMap, Records, Handles;
      Lookup(id);
      var service := services[id];
      var now := ReadClock();
      now := Max(now, lastMonotonic);
      lastMonotonic := now;
      service.sequence := service.sequence + 1;
      var item := Event(kind, id, service.sequence, now,
                        if service.generation == 0 then None else Some(service.generation),
                        x.exitCode, x.reason, x.nonce);
      log := log + [item];
      OnlyThis(id);
    }

    method MintCapabilities(id: Id)
      requires Valid() && id in services
      modifies this`grants, Of(id)`handles
      ensures View() == Mint(env, old(View()), id)
    {
      hide Wellformed, ServiceMap, Records;
      var service, m := services[id], env.manifests[id];
      var handles: seq<Handle> := [];
      for index := 0 to |m.capabilities|
        invariant handles == Handles(id, service.generation, index)
        invariant grants == old(grants) + (map h | h in handles :: GrantOf(m, h))
      {
        var handle := Handle(id, service.generation, index);
        assert Handles(id, service.generation, index + 1) == handles + [handle];
        GrantsSnoc(m, old(grants), handles, handle);
        grants := grants[handle := Grant(id, service.generation, m.capabilities[index].resource,
                                         m.capabilities[index].rights)];
        handles := handles + [handle];
      }
      service.handles := handles;
      OnlyThis(id);
    }

    method RevokeCapabilities(id: Id)
      requires Valid() && id in services
      modifies this`grants, this`revoked, Of(id)`handles
      ensures View() == Revoke(old(View()), id)
    {
      var service := services[id];
      for index := 0 to |service.handles|
        invariant service.handles == old(service.handles)
        invariant var done := set h | h in service.handles[..index];
                  revoked == old(revoked) + done && grants == old(grants) - done
      {
        var handle := service.handles[index];
        assert service.handles[..index + 1] == service.handles[..index] + [handle];
        RevokedSnoc(service.handles[..index], handle);
        revoked := revoked + {handle};
        grants := grants - {handle};
      }
      assert service.handles[..|service.handles|] == service.handles;
      service.handles := [];
      OnlyThis(id);
    }

    method Start(id: Id, ignoreDependencies: bool) returns (ok: bool)
      requires Valid() && id in services
      modifies this, Of(id)
      ensures ok == MayStart(env, old(View()), id, ignoreDependencies)
      ensures View() == SupervisorModel.Start(env, old(View()), id, ignoreDependencies)
    {
      hide Wellformed, ServiceMap, Records, MayStart, Refused, Checked, Begun, Mint, SupervisorModel.Emit;
      ok := Admit(id, ignoreDependencies);
      if ok {
        Begin(id);
        MintCapabilities(id);
        Emit(id, STARTING, PLAIN);
      }
    }

    /** The tests a start must pass. */
    method Admit(id: Id, ignoreDependencies: bool) returns (ok: bool)
      requires Valid() && id in services
      modifies this`readings
      ensures ok == MayStart(env, old(View()), id, ignoreDependencies)
      ensures View() == if ok then Checked(old(View()), id) else Refused(env, old(View()), id, ignoreDependencies)
    {
      hide Wellformed, ServiceMap, Records, SupervisorModel.DependenciesUp;
      var allowed := Allowed(id, ignoreDependencies);
      if !allowed {
        return false;
      }
      Lookup(id);
      ok := DueOrIdle(id);
    }

    /** Not up already, and not waiting for a later restart. */
    method DueOrIdle(id: Id) returns (ok: bool)
      requires Valid() && id in services
      modifies this`readings
      ensures View() == Checked(old(View()), id)
      ensures var svc := services[id].View();
              ok == (svc.state != Starting && !Up(svc.state)
                     && (svc.state == Restarting && svc.due.Some? ==> env.clock(old(readings)) >= svc.due.value))
    {
      hide Wellformed;
      Lookup(id);
      var service := services[id];
      if service.state == Restarting && service.due.Some? {
        var now := ReadClock();
        return now >= service.due.value;
      }
      ok := service.state != Starting && !Up(service.state);
    }

    /** The group is not barred and what the service depends on is up. */
    method Allowed(id: Id, ignoreDependencies: bool) returns (ok: bool)
      requires Valid() && id in services
      ensures View() == old(View())
      ensures ok == (&& env.manifests[id].group !in frozen
                     && (ignoreDependencies || SupervisorModel.DependenciesUp(env, View(), id)))
    {
      ok := env.manifests[id].group !in frozen;
      if ok && !ignoreDependencies {
        ok := DependenciesUp(env.manifests[id].dependencies);
      }
    }

    method DependenciesUp(dependencies: seq<Id>) returns (up: bool)
      requires forall d <- dependencies :: d in services
      ensures up == forall d <- dependencies :: Up(services[d].state)
    {
      for i := 0 to |dependencies|
        invariant forall d <- dependencies[..i] :: Up(services[d].state)
      {
        if !Up(services[dependencies[i]].state) {
          return false;
        }
      }
      assert dependencies[..|dependencies|] == dependencies;
      up := true;
    }

    method Begin(id: Id)
      requires Valid() && id in services
      modifies this`readings, this`nonces, Of(id)
      ensures View() == Begun(env, old(View()), id)
    {
      hide Wellformed, ServiceMap, Records, Handles;
      Lookup(id);
      var nonce := NonceFor(services[id].state, services[id].nonce);
      var now := ReadClock();
      Enlist(id, nonce, now);
    }

    method Enlist(id: Id, nonce: Option<string>, now: int)
      requires Valid() && id in services
      modifies Of(id)
      ensures ServiceMap() == old(ServiceMap())[id := services[id].View()]
      ensures var svc := old(services[id].View());
              services[id].View() ==
              Service(Starting, if svc.generation == 0 then 1 else svc.generation, svc.sequence, nonce,
                      Some(now), Some(now), svc.attempts, None, svc.handles)
    {
      hide Wellformed, ServiceMap, Records;
      var service := services[id];
      if service.generation == 0 {
        service.generation := 1;
      }
      service.state, service.nonce := Starting, nonce;
      service.started, service.lastHeartbeat, service.due := Some(now), Some(now), None;
      OnlyThis(id);
    }

    /** A restart keeps the nonce it was scheduled with. */
    method NonceFor(state: State, nonce: Option<string>) returns (r: Option<string>)
      modifies this`nonces
      ensures if state == Restarting && nonce.Some? then r == nonce && nonces == old(nonces)
              else r == Some(env.nonce(old(nonces))) && nonces == old(nonces) + 1
      ensures ServiceMap() == old(ServiceMap())
    {
      r := nonce;
      if state != Restarting || nonce.None? {
        var made := NewNonce();
        r := Some(made);
      }
    }

    method Mark(id: Id, st: State)
      requires Valid() && id in services
      modifies this`readings, Of(id)
      ensures View() == Marked(env, old(View()), id, st)
    {
      hide Wellformed, ServiceMap, Records, Handles;
      var now := ReadClock();
      services[id].state, services[id].lastHeartbeat := st, Some(now);
      OnlyThis(id);
    }

    method MarkReady(id: Id, generation: Option<nat>, nonce: Option<string>) returns (ok: bool)
      requires Valid() && id in services
      modifies this, Of(id)
      ensures View() == BecomeReady(env, old(View()), id, generation, nonce)
      ensures ok == (&& old(services[id].state) == Starting
                     && (generation.Some? ==> generation.value == old(services[id].generation))
                     && (nonce.Some? ==> nonce == old(services[id].nonce)))
    {
      hide Wellformed, ServiceMap, Records, Handles;
      Lookup(id);
      var service := services[id];
      if (generation.Some? && generation.value != service.generation) || (nonce.Some? && nonce != service.nonce) {
        return false;
      }
      if service.state != Starting {
        return false;
      }
      Mark(id, Ready);
      Emit(id, READY, PLAIN);
      ok := true;
    }

    method TakeHeartbeat(id: Id, generation: nat, nonce: string) returns (ok: bool)
      requires Valid() && id in services
      modifies this, Of(id)
      ensures ok == HeartbeatAccepted(old(services[id].View()), generation, nonce)
      ensures View() == Beat(env, old(View()), id, generation, nonce)
    {
      hide Wellformed, BecomeReady, ServiceMap, Records, Handles;
      Lookup(id);
      var service := services[id];
      ok := HeartbeatAccepted(service.View(), generation, nonce);
      if !ok {
        return;
      }
      if service.state == Starting {
        var _ := MarkReady(id, Some(generation), Some(nonce));
      }
      Lookup(id);
      Mark(id, Heartbeat);
      Lookup(id);
      Emit(id, HEARTBEAT, Extra(None, None, Some(service.nonce)));
    }

    method SetState(id: Id, st: State)
      requires Valid() && id in services
      modifies Of(id)`state
      ensures View() == Put(old(View()), id, old(services[id].View()).(state := st))
      ensures services[id].View() == old(services[id].View()).(state := st)
    {
      hide Wellformed, ServiceMap, Records;
      services[id].state := st;
      OnlyThis(id);
    }

    method FreezeService(id: Id, group: Id, exclude: Option<Id>) returns (counts: bool)
      requires Valid() && id in services
      modifies this, Of(id)
      ensures View() == FreezeOne(env, old(View()), id, group, exclude)
      ensures counts == (env.manifests[id].group == group && exclude != Some(id) && old(services[id].state) != Exit)
    {
      hide Wellformed, ServiceMap, Records, SupervisorModel.Emit;
      Lookup(id);
      if env.manifests[id].group != group || exclude == Some(id) || services[id].state == Exit {
        return false;
      }
      if services[id].state != Frozen {
        SetState(id, Frozen);
        Emit(id, FROZEN, Extra(None, Some("task_group"), None));
      }
      counts := true;
    }

    /** Freeze the group's services, except one when a fault or an exit freezes its peers. */
    method FreezeMembers(group: Id, exclude: Option<Id>)
      requires Valid()
      modifies this, Records()
      ensures View() == FreezePeers(env, old(View()), env.names, group, exclude)
    {
      NamesKnown();
      assert View() == FreezePeers(env, old(View()), env.names[..0], group, exclude);
      hide Wellformed, ServiceMap, FreezeOne, FreezePeers;
      for i := 0 to |env.names|
        invariant View() == FreezePeers(env, old(View()), env.names[..i], group, exclude)
      {
        PeersSnoc(env, old(View()), env.names, i, group, exclude);
        var _ := FreezeService(env.names[i], group, exclude);
      }
      assert env.names[..|env.names|] == env.names;
    }

    lemma NamesKnown()
      requires Valid()
      ensures forall id <- env.names :: id in services
      ensures forall id <- env.order :: id in services
    {
    }

    method Freeze(group: Id)
      requires Valid()
      modifies this, Records()
      ensures View() == FreezeGroup(env, old(View()), group)
    {
      frozen := frozen + {group};
      assert ServiceMap() == old(ServiceMap());
      FreezeMembers(group, None);
    }

    method ThawService(id: Id, group: Id) returns (resumed: bool)
      requires Valid() && id in services
      modifies this, Of(id)
      ensures View() == ThawOne(env, old(View()), id, group)
      ensures resumed == (env.manifests[id].group == group && old(services[id].state) == Frozen)
    {
      hide Wellformed, ServiceMap, Records, SupervisorModel.Emit;
      Lookup(id);
      resumed := env.manifests[id].group == group && services[id].state == Frozen;
      if resumed {
        Mark(id, Ready);
        Emit(id, READY, Extra(None, Some("task_group_unfrozen"), None));
      }
    }

    method Unfreeze(group: Id)
      requires Valid()
      modifies this, Records()
      ensures View() == UnfreezeGroup(env, old(View()), group)
    {
      frozen := frozen - {group};
      assert ServiceMap() == old(ServiceMap());
      ghost var s := View();
      NamesKnown();
      assert s == ThawAll(env, s, env.names[..0], group);
      hide Wellformed, ServiceMap, Records, ThawOne, ThawAll;
      for i := 0 to |env.names|
        invariant View() == ThawAll(env, s, env.names[..i], group)
      {
        ThawSnoc(env, s, env.names, i, group);
        var _ := ThawService(env.names[i], group);
      }
      assert env.names[..|env.names|] == env.names;
    }

    method Bump(id: Id)
      requires Valid() && id in services
      modifies this`readings, this`nonces, Of(id)
      ensures View() == Bumped(env, old(View()), id)
    {
      hide Wellformed, ServiceMap, Records, Handles;
      Lookup(id);
      var service := services[id];
      var nonce := NewNonce();
      var now := ReadClock();
      service.Renew(nonce, now + env.manifests[id].backoff * MILLISECOND);
      OnlyThis(id);
    }

    method Schedule(id: Id, reason: string) returns (restarts: bool)
      requires Valid() && id in services
      modifies this, Of(id)
      ensures restarts == MayRestart(env, old(View()), id)
      ensures View() == ScheduleRestart(env, old(View()), id, reason)
    {
      hide Wellformed, ServiceMap, Records, SupervisorModel.Emit, Bumped, Revoke;
      Lookup(id);
      restarts := env.manifests[id].mode != Never && services[id].attempts < env.manifests[id].maxAttempts;
      if !restarts {
        services[id].due := None;
        OnlyThis(id);
        return;
      }
      RevokeCapabilities(id);
      Bump(id);
      Emit(id, RESTARTING, Extra(None, Some(reason), None));
    }

    method ReportFault(id: Id, reason: string, exitCode: Option<int>) returns (restarts: bool)
      requires Valid() && id in services
      modifies this, Records()
      ensures View() == Faulted(env, old(View()), id, reason, exitCode)
      ensures restarts == (old(services[id].state) != Exit && MayRestart(env, old(View()), id))
    {
      hide Wellformed, ServiceMap, SupervisorModel.Emit, Revoke, FreezePeers, ScheduleRestart, Cut;
      Lookup(id);
      if services[id].state == Exit {
        return false;
      }
      SetState(id, Fault);
      RevokeCapabilities(id);
      Emit(id, FAULT, Extra(exitCode, Some(Cut(reason)), None));
      Quiet(env, old(View()), id, FAULT, Extra(exitCode, Some(Cut(reason)), None));
      NamesKnown();
      PeersSpare(env, View(), env.names, env.manifests[id].group, id);
      FreezeMembers(env.manifests[id].group, Some(id));
      restarts := Schedule(id, reason);
      if !restarts {
        Lookup(id);
        SetState(id, Fault);
      }
    }

    method ReportExit(id: Id, exitCode: int, reason: Option<string>) returns (restarts: bool)
      requires Valid() && id in services
      modifies this, Records()
      ensures View() == Exited(env, old(View()), id, exitCode, reason)
      ensures restarts == (&& old(services[id].state) != Exit && env.manifests[id].mode == Always
                           && MayRestart(env, old(View()), id))
    {
      hide Wellformed, ServiceMap, SupervisorModel.Emit, Revoke, FreezePeers, ScheduleRestart, Cut;
      Lookup(id);
      if services[id].state == Exit {
        return false;
      }
      SetState(id, Exit);
      RevokeCapabilities(id);
      var given := reason.Some? && reason.value != "";
      ghost var x := Extra(Some(exitCode), if given then Some(Cut(reason.value)) else None, None);
      Emit(id, EXIT, Extra(Some(exitCode), if given then Some(Cut(reason.value)) else None, None));
      Quiet(env, old(View()), id, EXIT, x);
      NamesKnown();
      PeersSpare(env, View(), env.names, env.manifests[id].group, id);
      FreezeMembers(env.manifests[id].group, Some(id));
      restarts := false;
      if env.manifests[id].mode == Always {
        restarts := Schedule(id, if given then reason.value else "exit");
      }
    }

    method Stop(id: Id, reason: string) returns (ok: bool)
      requires Valid() && id in services
      modifies this, Records()
      ensures View() == Stopped(env, old(View()), id, reason)
      ensures ok == (old(services[id].state) != Exit)
    {
      hide Wellformed, ServiceMap, SupervisorModel.Emit, Revoke, FreezePeers, Cut;
      Lookup(id);
      if services[id].state == Exit {
        return false;
      }
      Emit(id, STOPPING, Extra(None, Some(Cut(reason)), None));
      Lookup(id);
      SetState(id, Exit);
      RevokeCapabilities(id);
      Emit(id, EXIT, Extra(Some(0), Some(Cut(reason)), None));
      FreezeMembers(env.manifests[id].group, Some(id));
      ok := true;
    }

    method TickService(id: Id, now: int)
      requires Valid() && id in services
      modifies this, Records()
      ensures View() == TickOne(env, old(View()), id, now)
    {
      hide Wellformed, ServiceMap, SupervisorModel.Start, Faulted;
      Lookup(id);
      var service, m := services[id], env.manifests[id];
      if service.state == Restarting && service.due.Some? && now >= service.due.value {
        var _ := Start(id, false);
      } else if (service.state == Starting || Up(service.state)) && service.lastHeartbeat.Some? {
        if now - service.lastHeartbeat.value >= (m.timeout + m.grace) * MILLISECOND {
          var _ := ReportFault(id, "heartbeat_timeout", None);
        }
      }
    }

    method OnTick()
      requires Valid()
      modifies this, Records()
      ensures View() == Tick(env, old(View()))
    {
      NamesKnown();
      hide Wellformed, ServiceMap, TickAll;
      var now := ReadClock();
      assert View() == Read1(old(View()));
      TickServices(now);
    }

    method TickServices(now: int)
      requires Valid() && forall id <- env.names :: id in services
      modifies this, Records()
      ensures View() == TickAll(env, old(View()), env.names, now)
    {
      hide Wellformed, ServiceMap, TickOne, TickAll;
      TickNext(env, View(), env.names, 0, now);
      for i := 0 to |env.names|
        invariant View() == TickAll(env, old(View()), env.names[..i], now)
      {
        TickNext(env, old(View()), env.names, i, now);
        TickService(env.names[i], now);
      }
      assert env.names[..|env.names|] == env.names;
    }

    method StartEach()
      requires Valid()
      modifies this, Records()
      ensures View() == StartAll(env, old(View()), env.order)
    {
      NamesKnown();
      assert View() == StartAll(env, old(View()), env.order[..0]);
      hide Wellformed, ServiceMap, SupervisorModel.Start, StartAll;
      for i := 0 to |env.order|
        invariant View() == StartAll(env, old(View()), env.order[..i])
      {
        StartSnoc(env, old(View()), env.order, i);
        var _ := Start(env.order[i], true);
      }
      assert env.order[..|env.order|] == env.order;
    }

    method ValidateCapability(h: Handle, id: Id, right: Right) returns (ok: bool)
      requires Valid()
      ensures ok == Validates(View(), h, id, right)
    {
      ok := && h in grants && grants[h].service == id && right in grants[h].rights
            && h !in revoked && id in services && grants[h].generation == services[id].generation;
    }
  }

  lemma TickNext(env: Setting, s: SupervisorModel.Supervisor, names: seq<Id>, i: nat, now: int)
    requires Wellformed(env) && Known(env, s) && i <= |names| && forall id <- names :: id in s.services
    ensures TickAll(env, s, names[..0], now) == s
    ensures i < |names| ==>
              TickAll(env, s, names[..i + 1], now) == TickOne(env, TickAll(env, s, names[..i], now), names[i], now)
  {
    hide TickOne;
    if i < |names| {
      assert names[..i + 1][..i] == names[..i];
    }
  }

  /** Putting a state, revoking and emitting leave restarts and policy questions as they were. */
  lemma Quiet(env: Setting, s: SupervisorModel.Supervisor, id: Id, kind: EventKind, x: Extra)
    requires Known(env, s) && id in s.services
    ensures forall st ::
              var t := SupervisorModel.Emit(env, Revoke(Put(s, id, s.services[id].(state := st)), id), id, kind, x);
              id in t.services && t.services[id].attempts == s.services[id].attempts
  {
  }

  lemma PeersSnoc(env: Setting, s: SupervisorModel.Supervisor, names: seq<Id>, i: nat, group: Id, exclude: Option<Id>)
    requires i < |names| && forall id <- names :: id in s.services && id in env.manifests
    ensures FreezePeers(env, s, names[..i + 1], group, exclude)
            == FreezeOne(env, FreezePeers(env, s, names[..i], group, exclude), names[i], group, exclude)
  {
    assert names[..i + 1][..i] == names[..i];
  }

  lemma ThawSnoc(env: Setting, s: SupervisorModel.Supervisor, names: seq<Id>, i: nat, group: Id)
    requires i < |names| && forall id <- names :: id in s.services && id in env.manifests
    ensures ThawAll(env, s, names[..i + 1], group) == ThawOne(env, ThawAll(env, s, names[..i], group), names[i], group)
  {
    assert names[..i + 1][..i] == names[..i];
  }

  lemma StartSnoc(env: Setting, s: SupervisorModel.Supervisor, order: seq<Id>, i: nat)
    requires Wellformed(env) && Known(env, s) && i < |order| && forall id <- order :: id in s.services
    ensures StartAll(env, s, order[..i + 1])
            == SupervisorModel.Start(env, StartAll(env, s, order[..i]), order[i], true)
  {
    assert order[..i + 1][..i] == order[..i];
  }

  lemma GrantsSnoc(m: Manifest, grants: map<Handle, Grant>, hs: seq<Handle>, h: Handle)
    requires h.index < |m.capabilities| && forall k <- hs :: k.index < |m.capabilities|
    ensures (grants + map k | k in hs :: GrantOf(m, k))[h := GrantOf(m, h)]
            == grants + map k | k in hs + [h] :: GrantOf(m, k)
  {
  }

  lemma RevokedSnoc(hs: seq<Handle>, h: Handle)
    ensures (set k | k in hs + [h]) == (set k | k in hs) + {h}
  {
  }
}
