/** What holds over every run of the Supervisor. */
module SupervisorRuns {
  import opened Words
  import opened SupervisorModel

  /** A service's own record: the generation counts the restarts, restarts stay within the policy,
      and it holds all the handles of its generation or none. */
  ghost predicate RecordOk(m: Manifest, id: Id, svc: Service) {
    && (svc.generation == 0 ==> svc.state == Exit && svc.attempts == 0 && svc.handles == [])
    && (svc.generation > 0 ==> svc.generation == 1 + svc.attempts)
    && svc.attempts <= m.maxAttempts
    && (svc.state != Exit ==> svc.generation > 0 && svc.nonce.Some?)
    && (svc.handles == [] || svc.handles == Handles(id, svc.generation, |m.capabilities|))
    && (svc.state == Restarting ==> svc.handles == [])
  }

  ghost predicate AllRevoked(revoked: set<Handle>, hs: seq<Handle>) {
    forall i | 0 <= i < |hs| :: hs[i] in revoked
  }

  ghost predicate NoneRevoked(revoked: set<Handle>, hs: seq<Handle>) {
    forall i | 0 <= i < |hs| :: hs[i] !in revoked
  }

  /** The handles a generation of a service has, held or not. */
  function Current(env: Setting, s: Supervisor, id: Id): seq<Handle>
    requires id in s.services && id in env.manifests
  {
    Handles(id, s.services[id].generation, |env.manifests[id].capabilities|)
  }

  ghost predicate StreamOk(s: Supervisor, id: Id)
    requires id in s.services
  {
    var stream, svc := Stream(s.log, id), s.services[id];
    && StreamAccepted(stream)
    && (stream != [] ==>
          var last := stream[|stream| - 1];
          && last.service == id && last.sequence == svc.sequence && last.monotonic <= s.lastMonotonic
          && (last.generation.Some? ==> last.generation.value <= svc.generation))
  }

  ghost predicate ServiceOk(env: Setting, s: Supervisor, id: Id)
    requires id in s.services && id in env.manifests
  {
    && RecordOk(env.manifests[id], id, s.services[id])
    && (AllRevoked(s.revoked, Current(env, s, id)) || NoneRevoked(s.revoked, Current(env, s, id)))
    && (s.services[id].state == Restarting ==> NoneRevoked(s.revoked, Current(env, s, id)))
    && StreamOk(s, id)
  }

  /** The grant table holds exactly the grants of the handles that services hold. */
  ghost predicate GrantsOk(env: Setting, s: Supervisor)
    requires Known(env, s)
  {
    && (forall h :: h in s.grants <==> h.service in s.services && h in s.services[h.service].handles)
    && (forall h <- s.grants ::
          && h.service in s.services && h.index < |env.manifests[h.service].capabilities|
          && s.grants[h] == GrantOf(env.manifests[h.service], h))
  }

  ghost predicate RevokedOk(s: Supervisor) {
    forall h <- s.revoked :: h.service in s.services && h.generation <= s.services[h.service].generation
  }

  ghost predicate Inv(env: Setting, s: Supervisor) {
    && Known(env, s) && s.lastMonotonic >= 0
    && (forall id <- s.services :: ServiceOk(env, s, id))
    && GrantsOk(env, s) && RevokedOk(s)
  }

  // --- a change to one service ---

  /** `t` is `s` with the record of `id` changed, and whatever else concerns only `id`. */
  ghost predicate Touches(s: Supervisor, t: Supervisor, id: Id) {
    && id in s.services && id in t.services && t.services == s.services[id := t.services[id]]
    && (forall h <- s.revoked + t.revoked :: h.service != id ==> (h in s.revoked <==> h in t.revoked))
    && s.lastMonotonic <= t.lastMonotonic
    && (t.log == s.log || exists e: Event :: e.service == id && t.log == s.log + [e])
  }

  lemma StreamSnoc(log: seq<Event>, e: Event, id: Id)
    ensures Stream(log + [e], id) == Stream(log, id) + if e.service == id then [e] else []
  {
    assert (log + [e])[..|log|] == log;
  }

  lemma OtherOk(env: Setting, s: Supervisor, t: Supervisor, id: Id, other: Id)
    requires Inv(env, s) && Touches(s, t, id) && other in s.services && other != id
    ensures ServiceOk(env, t, other)
  {
    hide RecordOk, GrantsOk, RevokedOk, StreamAccepted;
    assert Stream(t.log, other) == Stream(s.log, other) by {
      if t.log != s.log {
        var e: Event :| e.service == id && t.log == s.log + [e];
        StreamSnoc(s.log, e, other);
      }
    }
    assert ServiceOk(env, s, other);
    assert Current(env, t, other) == Current(env, s, other);
    var hs := Current(env, s, other);
    assert forall i | 0 <= i < |hs| :: hs[i].service == other;
    assert forall i | 0 <= i < |hs| :: (hs[i] in t.revoked <==> hs[i] in s.revoked);
  }

  lemma TouchKeeps(env: Setting, s: Supervisor, t: Supervisor, id: Id)
    requires Inv(env, s) && Touches(s, t, id)
    requires ServiceOk(env, t, id) && GrantsOk(env, t) && RevokedOk(t)
    ensures Inv(env, t)
  {
    assert t.services.Keys == s.services.Keys && s.lastMonotonic <= t.lastMonotonic;
    hide ServiceOk, GrantsOk, RevokedOk, Touches;
    forall other <- t.services ensures ServiceOk(env, t, other) {
      if other != id {
        OtherOk(env, s, t, id, other);
      }
    }
  }

  /** A new record with the same sequence number: the handles stay, or a new generation begins with
      none held. */
  lemma RecordKeeps(env: Setting, s: Supervisor, t: Supervisor, id: Id)
    requires Inv(env, s) && id in s.services && id in t.services
    requires t.services == s.services[id := t.services[id]] && t.revoked == s.revoked && t.grants == s.grants
    requires t.lastMonotonic == s.lastMonotonic && t.log == s.log
    requires var svc, was := t.services[id], s.services[id];
             && RecordOk(env.manifests[id], id, svc) && svc.sequence == was.sequence && svc.handles == was.handles
             && (svc.generation == was.generation || (svc.generation > was.generation && svc.handles == []))
             && (svc.state == Restarting ==> was.state == Restarting || svc.generation > was.generation)
    ensures Inv(env, t)
  {
    hide RecordOk, StreamAccepted, Stream;
    var svc, was := t.services[id], s.services[id];
    assert ServiceOk(env, s, id);
    var hs := Current(env, t, id);
    if svc.generation != was.generation {
      assert NoneRevoked(t.revoked, hs);
    } else {
      assert hs == Current(env, s, id);
    }
    assert ServiceOk(env, t, id);
    assert GrantsOk(env, t);
    TouchKeeps(env, s, t, id);
  }

  lemma AppendAccepted(stream: seq<Event>, e: Event)
    requires StreamAccepted(stream)
    requires Accepts(e, Preceding(stream, |stream|))
    ensures StreamAccepted(stream + [e])
  {
    hide Accepts;
    var more := stream + [e];
    forall k | 0 <= k < |more| ensures Accepts(more[k], Preceding(more, k)) {
      assert Preceding(more, k) == Preceding(stream, k);
    }
  }

  lemma EmittedStream(env: Setting, s: Supervisor, id: Id, kind: EventKind, x: Extra)
    requires id in s.services && StreamOk(s, id) && s.lastMonotonic >= 0 && (kind == HEARTBEAT ==> x.nonce.Some?)
    ensures StreamOk(Emit(env, s, id, kind, x), id)
  {
    hide StreamAccepted, Stream;
    var t := Emit(env, s, id, kind, x);
    var e := t.log[|s.log|];
    StreamSnoc(s.log, e, id);
    AppendAccepted(Stream(s.log, id), e);
  }

  lemma EmitKeeps(env: Setting, s: Supervisor, id: Id, kind: EventKind, x: Extra)
    requires Inv(env, s) && id in s.services && (kind == HEARTBEAT ==> x.nonce.Some?)
    ensures Inv(env, Emit(env, s, id, kind, x))
  {
    hide AllRevoked, NoneRevoked, Stream, StreamOk;
    var t := Emit(env, s, id, kind, x);
    assert ServiceOk(env, s, id);
    EmittedStream(env, s, id, kind, x);
    assert Current(env, t, id) == Current(env, s, id);
    assert ServiceOk(env, t, id);
    hide ServiceOk, RecordOk;
    assert t.log[|s.log|].service == id;
    assert Touches(s, t, id);
    assert GrantsOk(env, t);
    TouchKeeps(env, s, t, id);
  }

  lemma MintKeeps(env: Setting, s: Supervisor, id: Id)
    requires Inv(env, s) && id in s.services && s.services[id].generation > 0 && s.services[id].state != Restarting
    ensures Inv(env, Mint(env, s, id))
  {
    hide StreamAccepted, Stream, AllRevoked, NoneRevoked;
    var t := Mint(env, s, id);
    assert ServiceOk(env, s, id);
    assert Current(env, t, id) == Current(env, s, id) == t.services[id].handles;
    assert ServiceOk(env, t, id);
    assert GrantsOk(env, t) by {
      hide RecordOk, StreamOk, RevokedOk;
      MintedGrants(env, s, id);
    }
    TouchKeeps(env, s, t, id);
  }

  lemma MintedGrants(env: Setting, s: Supervisor, id: Id)
    requires Known(env, s) && GrantsOk(env, s) && id in s.services && RecordOk(env.manifests[id], id, s.services[id])
    requires s.services[id].state != Restarting
    ensures GrantsOk(env, Mint(env, s, id))
  {
    hide RecordOk, GrantOf, GrantsOk;
    HeldAmongMinted(env, s, id);
    var t := Mint(env, s, id);
    var hs := t.services[id].handles;
    assert forall h <- hs :: h.service == id && h.index < |env.manifests[id].capabilities|;
    assert forall h :: h in t.grants <==> h in s.grants || h in hs;
    assert GrantsOk(env, t) by {
      MintedBoth(env, s, t, id, hs);
    }
  }

  lemma MintedBoth(env: Setting, s: Supervisor, t: Supervisor, id: Id, hs: seq<Handle>)
    requires Known(env, s) && GrantsOk(env, s) && id in s.services
    requires id in t.services && t.services == s.services[id := t.services[id]] && t.services[id].handles == hs
    requires forall h <- s.services[id].handles :: h in hs
    requires forall h <- hs :: h.service == id && h.index < |env.manifests[id].capabilities|
    requires t.grants == s.grants + map h | h in hs :: GrantOf(env.manifests[id], h)
    ensures GrantsOk(env, t)
  {
    MintedKeys(env, s, t, id, hs);
    MintedValues(env, s, t, id, hs);
  }

  lemma HeldAmongMinted(env: Setting, s: Supervisor, id: Id)
    requires Known(env, s) && id in s.services && RecordOk(env.manifests[id], id, s.services[id])
    requires s.services[id].state != Restarting
    ensures forall h <- s.services[id].handles :: h in Mint(env, s, id).services[id].handles
  {
  }

  lemma MintedKeys(env: Setting, s: Supervisor, t: Supervisor, id: Id, hs: seq<Handle>)
    requires Known(env, s) && GrantsOk(env, s) && id in s.services
    requires id in t.services && t.services == s.services[id := t.services[id]] && t.services[id].handles == hs
    requires forall h <- s.services[id].handles :: h in hs
    requires forall h <- hs :: h.service == id
    requires forall h :: h in t.grants <==> h in s.grants || h in hs
    ensures forall h :: h in t.grants <==> h.service in t.services && h in t.services[h.service].handles
  {
  }

  lemma MintedValues(env: Setting, s: Supervisor, t: Supervisor, id: Id, hs: seq<Handle>)
    requires Known(env, s) && GrantsOk(env, s) && t.services.Keys == s.services.Keys && id in s.services
    requires forall h <- hs :: h.service == id && h.index < |env.manifests[id].capabilities|
    requires t.grants == s.grants + map h | h in hs :: GrantOf(env.manifests[id], h)
    ensures forall h <- t.grants ::
              && h.service in t.services && h.index < |env.manifests[h.service].capabilities|
              && t.grants[h] == GrantOf(env.manifests[h.service], h)
  {
  }

  lemma RevokedService(env: Setting, s: Supervisor, id: Id)
    requires Known(env, s) && id in s.services && ServiceOk(env, s, id)
    ensures var t := Revoke(s, id);
            ServiceOk(env, t, id) && forall h <- s.services[id].handles :: h in Current(env, s, id)
  {
    hide StreamAccepted, Stream;
    var t := Revoke(s, id);
    assert Current(env, t, id) == Current(env, s, id);
    assert s.services[id].handles != [] ==> AllRevoked(t.revoked, Current(env, t, id));
    assert s.services[id].handles == [] ==> t.revoked == s.revoked;
  }

  lemma RevokedGrants(env: Setting, s: Supervisor, id: Id)
    requires Known(env, s) && GrantsOk(env, s) && id in s.services
    requires forall h <- s.services[id].handles :: h.service == id
    ensures GrantsOk(env, Revoke(s, id))
  {
  }

  lemma RevokedTouches(s: Supervisor, id: Id)
    requires id in s.services && RevokedOk(s)
    requires forall h <- s.services[id].handles :: h.service == id && h.generation == s.services[id].generation
    ensures RevokedOk(Revoke(s, id)) && Touches(s, Revoke(s, id), id) && Revoke(s, id).services[id].handles == []
  {
  }

  lemma RevokeKeeps(env: Setting, s: Supervisor, id: Id)
    requires Inv(env, s) && id in s.services
    ensures Inv(env, Revoke(s, id)) && Revoke(s, id).services[id].handles == []
  {
    var t := Revoke(s, id);
    assert ServiceOk(env, s, id);
    RevokedService(env, s, id);
    assert forall h <- Current(env, s, id) :: h.service == id && h.generation == s.services[id].generation;
    hide ServiceOk, Current, GrantsOk;
    RevokedGrants(env, s, id);
    RevokedTouches(s, id);
    hide RevokedOk, Touches, Revoke;
    TouchKeeps(env, s, t, id);
  }

  // --- every operation keeps it ---

  /** A record that keeps its generation and its handles. */
  lemma SetKeeps(env: Setting, s: Supervisor, t: Supervisor, id: Id)
    requires Inv(env, s) && id in s.services && id in t.services
    requires t.services == s.services[id := t.services[id]] && t.revoked == s.revoked && t.grants == s.grants
    requires t.lastMonotonic == s.lastMonotonic && t.log == s.log
    requires var svc, was := t.services[id], s.services[id];
             && svc.generation == was.generation && svc.attempts == was.attempts && svc.nonce == was.nonce
             && svc.sequence == was.sequence && svc.handles == was.handles
             && (svc.state != Exit ==> was.state != Exit) && (svc.state == Restarting ==> was.state == Restarting)
    ensures Inv(env, t)
  {
    assert ServiceOk(env, s, id);
    assert RecordOk(env.manifests[id], id, t.services[id]) by {
      hide AllRevoked, NoneRevoked, StreamOk;
    }
    hide ServiceOk, RecordOk, GrantsOk, RevokedOk;
    RecordKeeps(env, s, t, id);
  }

  lemma ReadKeeps(env: Setting, s: Supervisor)
    requires Inv(env, s)
    ensures Inv(env, Read1(s))
  {
    hide RecordOk, AllRevoked, NoneRevoked, StreamAccepted, Stream;
    forall id <- s.services ensures ServiceOk(env, Read1(s), id) {
      assert ServiceOk(env, s, id);
      assert Current(env, Read1(s), id) == Current(env, s, id);
    }
  }

  lemma BegunKeeps(env: Setting, s: Supervisor, id: Id)
    requires Inv(env, s) && id in s.services
    ensures Inv(env, Begun(env, s, id)) && Begun(env, s, id).services[id].generation > 0
    ensures Begun(env, s, id).services[id].state == Starting
  {
    assert ServiceOk(env, s, id);
    assert RecordOk(env.manifests[id], id, Begun(env, s, id).services[id]);
    assert s.services[id].generation == 0 ==> s.services[id].handles == [];
    hide ServiceOk, RecordOk, GrantsOk, RevokedOk;
    RecordKeeps(env, s, Begun(env, s, id), id);
  }

  lemma StartKeeps(env: Setting, s: Supervisor, id: Id, ignoreDependencies: bool)
    requires Wellformed(env) && Inv(env, s) && id in s.services
    ensures Inv(env, Start(env, s, id, ignoreDependencies))
  {
    hide ServiceOk, GrantsOk, RevokedOk, MayStart, Wellformed;
    ReadKeeps(env, s);
    var a := Checked(s, id);
    BegunKeeps(env, a, id);
    MintKeeps(env, Begun(env, a, id), id);
    EmitKeeps(env, Mint(env, Begun(env, a, id), id), id, STARTING, PLAIN);
  }

  lemma MarkedKeeps(env: Setting, s: Supervisor, id: Id, st: State)
    requires Inv(env, s) && id in s.services && s.services[id].state != Exit && st != Restarting
    ensures Inv(env, Marked(env, s, id, st))
  {
    hide Inv;
    SetKeeps(env, s, Marked(env, s, id, st), id);
  }

  lemma ReadyKeeps(env: Setting, s: Supervisor, id: Id, generation: Option<nat>, nonce: Option<string>)
    requires Inv(env, s) && id in s.services
    ensures Inv(env, BecomeReady(env, s, id, generation, nonce))
    ensures s.services[id].state != Exit ==> BecomeReady(env, s, id, generation, nonce).services[id].state != Exit
  {
    hide Inv;
    if s.services[id].state == Starting {
      MarkedKeeps(env, s, id, Ready);
      EmitKeeps(env, Marked(env, s, id, Ready), id, READY, PLAIN);
    }
  }

  lemma BeatKeeps(env: Setting, s: Supervisor, id: Id, generation: nat, nonce: string)
    requires Inv(env, s) && id in s.services
    ensures Inv(env, Beat(env, s, id, generation, nonce))
  {
    assert id in BecomeReady(env, s, id, Some(generation), Some(nonce)).services;
    hide Inv, BecomeReady, LowerAll;
    if HeartbeatAccepted(s.services[id], generation, nonce) {
      ReadyKeeps(env, s, id, Some(generation), Some(nonce));
      var r := if s.services[id].state == Starting then BecomeReady(env, s, id, Some(generation), Some(nonce)) else s;
      MarkedKeeps(env, r, id, Heartbeat);
      EmitKeeps(env, Marked(env, r, id, Heartbeat), id, HEARTBEAT, Extra(None, None, Some(r.services[id].nonce)));
    }
  }

  lemma FreezeOneKeeps(env: Setting, s: Supervisor, id: Id, group: Id, exclude: Option<Id>)
    requires Inv(env, s) && id in s.services && id in env.manifests
    ensures Inv(env, FreezeOne(env, s, id, group, exclude))
    ensures forall other <- s.services :: exclude == Some(other) ==>
              other in FreezeOne(env, s, id, group, exclude).services
              && FreezeOne(env, s, id, group, exclude).services[other] == s.services[other]
  {
    hide Inv;
    if s.services[id].state != Exit {
      var a := Put(s, id, s.services[id].(state := Frozen));
      SetKeeps(env, s, a, id);
      EmitKeeps(env, a, id, FROZEN, Extra(None, Some("task_group"), None));
    }
  }

  /** Freezing peers leaves the excluded service as it is. */
  lemma {:induction false} PeersKeep(env: Setting, s: Supervisor, names: seq<Id>, group: Id, exclude: Option<Id>)
    requires Inv(env, s) && forall id <- names :: id in s.services && id in env.manifests
    ensures Inv(env, FreezePeers(env, s, names, group, exclude))
    ensures forall other <- s.services :: exclude == Some(other) ==>
              FreezePeers(env, s, names, group, exclude).services[other] == s.services[other]
    decreases |names|
  {
    hide Inv, FreezeOne;
    if names != [] {
      var front := names[..|names| - 1];
      PeersKeep(env, s, front, group, exclude);
      FreezeOneKeeps(env, FreezePeers(env, s, front, group, exclude), names[|names| - 1], group, exclude);
    }
  }

  lemma ThawOneKeeps(env: Setting, s: Supervisor, id: Id, group: Id)
    requires Inv(env, s) && id in s.services && id in env.manifests
    ensures Inv(env, ThawOne(env, s, id, group))
  {
    hide Inv;
    if s.services[id].state == Frozen {
      MarkedKeeps(env, s, id, Ready);
      EmitKeeps(env, Marked(env, s, id, Ready), id, READY, Extra(None, Some("task_group_unfrozen"), None));
    }
  }

  lemma {:induction false} ThawKeeps(env: Setting, s: Supervisor, names: seq<Id>, group: Id)
    requires Inv(env, s) && forall id <- names :: id in s.services && id in env.manifests
    ensures Inv(env, ThawAll(env, s, names, group))
    decreases |names|
  {
    hide Inv, ThawOne;
    if names != [] {
      ThawKeeps(env, s, names[..|names| - 1], group);
      ThawOneKeeps(env, ThawAll(env, s, names[..|names| - 1], group), names[|names| - 1], group);
    }
  }

  lemma BumpedKeeps(env: Setting, s: Supervisor, id: Id)
    requires Inv(env, s) && id in s.services && MayRestart(env, s, id)
    requires s.services[id].generation > 0 && s.services[id].handles == []
    ensures Inv(env, Bumped(env, s, id))
  {
    assert ServiceOk(env, s, id);
    assert RecordOk(env.manifests[id], id, Bumped(env, s, id).services[id]) by {
      hide AllRevoked, NoneRevoked, StreamOk;
    }
    hide ServiceOk, RecordOk, GrantsOk, RevokedOk;
    RecordKeeps(env, s, Bumped(env, s, id), id);
  }

  lemma RestartKeeps(env: Setting, s: Supervisor, id: Id, reason: string)
    requires Inv(env, s) && id in s.services && s.services[id].generation > 0
    ensures Inv(env, ScheduleRestart(env, s, id, reason))
    ensures !MayRestart(env, s, id) ==> ScheduleRestart(env, s, id, reason).services[id].state == s.services[id].state
  {
    assert id in env.manifests;
    hide Inv;
    if MayRestart(env, s, id) {
      RevokeKeeps(env, s, id);
      BumpedKeeps(env, Revoke(s, id), id);
      EmitKeeps(env, Bumped(env, Revoke(s, id), id), id, RESTARTING, Extra(None, Some(reason), None));
    } else {
      SetKeeps(env, s, ScheduleRestart(env, s, id, reason), id);
    }
  }

  lemma LivesOk(env: Setting, s: Supervisor, id: Id)
    requires Inv(env, s) && id in s.services
    ensures s.services[id].state != Exit ==> s.services[id].generation > 0
  {
    assert ServiceOk(env, s, id);
  }

  /** Leaving: a new state, the handles revoked, an event. */
  function Left(env: Setting, s: Supervisor, id: Id, st: State, kind: EventKind, x: Extra): Supervisor
    requires id in s.services
  {
    Emit(env, Revoke(Put(s, id, s.services[id].(state := st)), id), id, kind, x)
  }

  lemma LeftKeeps(env: Setting, s: Supervisor, id: Id, st: State, kind: EventKind, x: Extra)
    requires Inv(env, s) && id in s.services && s.services[id].state != Exit && kind != HEARTBEAT && st != Restarting
    ensures var b := Left(env, s, id, st, kind, x);
            Inv(env, b) && id in b.services && b.services[id].state == st && b.services[id].generation > 0
  {
    LivesOk(env, s, id);
    var a := Put(s, id, s.services[id].(state := st));
    hide Inv;
    SetKeeps(env, s, a, id);
    RevokeKeeps(env, a, id);
    EmitKeeps(env, Revoke(a, id), id, kind, x);
  }

  lemma NamesStay(env: Setting, s: Supervisor)
    requires Wellformed(env) && Known(env, s)
    ensures forall n <- env.names :: n in s.services && n in env.manifests
  {
  }

  /** Leaving, and the peers frozen. */
  lemma LeaveKeeps(env: Setting, s: Supervisor, id: Id, st: State, kind: EventKind, x: Extra)
    requires Wellformed(env) && Inv(env, s) && id in s.services && s.services[id].state != Exit
    requires kind != HEARTBEAT && st != Restarting
    ensures var b := Left(env, s, id, st, kind, x);
            && Inv(env, b) && id in env.manifests
            && (forall n <- env.names :: n in b.services && n in env.manifests)
            && (var c := FreezePeers(env, b, env.names, env.manifests[id].group, Some(id));
                && Inv(env, c) && id in c.services && c.services[id].state == st && c.services[id].generation > 0)
  {
    InvKnown(env, s);
    hide Inv, Wellformed, Left;
    LeftKeeps(env, s, id, st, kind, x);
    var b := Left(env, s, id, st, kind, x);
    InvKnown(env, b);
    NamesStay(env, b);
    PeersKeep(env, b, env.names, env.manifests[id].group, Some(id));
  }

  lemma FaultKeeps(env: Setting, s: Supervisor, id: Id, reason: string, exitCode: Option<int>)
    requires Wellformed(env) && Inv(env, s) && id in s.services
    ensures Inv(env, Faulted(env, s, id, reason, exitCode))
  {
    assert id in env.manifests;
    if s.services[id].state != Exit {
      var x := Extra(exitCode, Some(Cut(reason)), None);
      LeaveKeeps(env, s, id, Fault, FAULT, x);
      hide Inv, Wellformed, Emit, Revoke, FreezePeers, ScheduleRestart;
      var b := Left(env, s, id, Fault, FAULT, x);
      var c := FreezePeers(env, b, env.names, env.manifests[id].group, Some(id));
      RestartKeeps(env, c, id, reason);
      var d := ScheduleRestart(env, c, id, reason);
      if !MayRestart(env, c, id) {
        SetKeeps(env, d, Put(d, id, d.services[id].(state := Fault)), id);
      }
    }
  }

  /** After an exit: another try if the policy always restarts. */
  lemma AfterExitKeeps(env: Setting, c: Supervisor, id: Id, reason: string)
    requires Inv(env, c) && id in c.services && id in env.manifests && c.services[id].generation > 0
    ensures Inv(env, if env.manifests[id].mode == Always then ScheduleRestart(env, c, id, reason) else c)
  {
    hide Inv, ScheduleRestart;
    RestartKeeps(env, c, id, reason);
  }

  lemma ExitKeeps(env: Setting, s: Supervisor, id: Id, exitCode: int, reason: Option<string>)
    requires Wellformed(env) && Inv(env, s) && id in s.services
    ensures Inv(env, Exited(env, s, id, exitCode, reason))
  {
    assert id in env.manifests && Known(env, s);
    hide Inv, Wellformed, ScheduleRestart, FreezePeers, Cut;
    if s.services[id].state != Exit {
      var given := reason.Some? && reason.value != "";
      var x := Extra(Some(exitCode), if given then Some(Cut(reason.value)) else None, None);
      LeaveKeeps(env, s, id, Exit, EXIT, x);
      var b := Left(env, s, id, Exit, EXIT, x);
      hide Emit, Revoke;
      var c := FreezePeers(env, b, env.names, env.manifests[id].group, Some(id));
      AfterExitKeeps(env, c, id, if given then reason.value else "exit");
    }
  }

  lemma StopKeeps(env: Setting, s: Supervisor, id: Id, reason: string)
    requires Wellformed(env) && Inv(env, s) && id in s.services
    ensures Inv(env, Stopped(env, s, id, reason))
  {
    assert id in env.manifests;
    if s.services[id].state != Exit {
      hide Inv, Wellformed;
      EmitKeeps(env, s, id, STOPPING, Extra(None, Some(Cut(reason)), None));
      LeaveKeeps(env, Emit(env, s, id, STOPPING, Extra(None, Some(Cut(reason)), None)), id, Exit, EXIT,
                 Extra(Some(0), Some(Cut(reason)), None));
    }
  }

  lemma TickOneKeeps(env: Setting, s: Supervisor, id: Id, now: int)
    requires Wellformed(env) && Inv(env, s) && id in s.services
    ensures Inv(env, TickOne(env, s, id, now))
  {
    assert id in env.manifests;
    hide Inv, Wellformed, Start, Faulted;
    StartKeeps(env, s, id, false);
    FaultKeeps(env, s, id, "heartbeat_timeout", None);
  }

  lemma {:induction false} TickKeeps(env: Setting, s: Supervisor, names: seq<Id>, now: int)
    requires Wellformed(env) && Inv(env, s) && forall id <- names :: id in s.services
    ensures Inv(env, TickAll(env, s, names, now))
    decreases |names|
  {
    assert Known(env, s);
    hide Inv, TickOne, Wellformed;
    if names != [] {
      TickKeeps(env, s, names[..|names| - 1], now);
      TickOneKeeps(env, TickAll(env, s, names[..|names| - 1], now), names[|names| - 1], now);
    }
  }

  lemma {:induction false} StartAllKeeps(env: Setting, s: Supervisor, order: seq<Id>)
    requires Wellformed(env) && Inv(env, s) && forall id <- order :: id in s.services
    ensures Inv(env, StartAll(env, s, order))
    decreases |order|
  {
    assert Known(env, s);
    hide Inv, Start, Wellformed;
    if order != [] {
      StartAllKeeps(env, s, order[..|order| - 1]);
      StartKeeps(env, StartAll(env, s, order[..|order| - 1]), order[|order| - 1], true);
    }
  }

  /** Only the set of barred groups changes. */
  lemma FrozenKeeps(env: Setting, s: Supervisor, frozen: set<Id>)
    requires Inv(env, s)
    ensures Inv(env, s.(frozen := frozen))
  {
    hide RecordOk, AllRevoked, NoneRevoked, StreamAccepted, Stream;
    var t := s.(frozen := frozen);
    forall id <- s.services ensures ServiceOk(env, t, id) {
      assert ServiceOk(env, s, id);
      assert Current(env, t, id) == Current(env, s, id);
    }
  }

  lemma GroupKeeps(env: Setting, s: Supervisor, group: Id)
    requires Wellformed(env) && Inv(env, s)
    ensures Inv(env, FreezeGroup(env, s, group)) && Inv(env, UnfreezeGroup(env, s, group))
  {
    assert Known(env, s);
    hide Inv, FreezePeers, ThawAll;
    FrozenKeeps(env, s, s.frozen + {group});
    PeersKeep(env, s.(frozen := s.frozen + {group}), env.names, group, None);
    FrozenKeeps(env, s, s.frozen - {group});
    ThawKeeps(env, s.(frozen := s.frozen - {group}), env.names, group);
  }

  lemma ClockKeeps(env: Setting, s: Supervisor)
    requires Wellformed(env) && Inv(env, s)
    ensures Inv(env, Tick(env, s))
  {
    assert Known(env, s);
    hide Inv, TickAll;
    ReadKeeps(env, s);
    TickKeeps(env, Read1(s), env.names, Reading(env, s));
  }

  lemma StepCalls(env: Setting, s: Supervisor, op: Op)
    requires Wellformed(env) && Known(env, s) && NamesService(op) && op.id in s.services
    ensures Step(env, s, op) == Called(env, s, op)
  {
    hide Wellformed, Called, FreezeGroup, UnfreezeGroup, Tick, StartAll;
  }

  lemma CallKeeps(env: Setting, s: Supervisor, op: Op)
    requires Wellformed(env) && Known(env, s) && Inv(env, s) && NamesService(op) && op.id in s.services
    ensures Inv(env, Called(env, s, op))
  {
    hide Inv, Known, Wellformed, Start, BecomeReady, Beat, Faulted, Exited, Stopped;
    match op
    case StartService(id, ignore) => StartKeeps(env, s, id, ignore);
    case ReadyService(id, g, n) => ReadyKeeps(env, s, id, g, n);
    case BeatService(id, g, n) => BeatKeeps(env, s, id, g, n);
    case FaultService(id, r, c) => FaultKeeps(env, s, id, r, c);
    case ExitService(id, c, r) => ExitKeeps(env, s, id, c, r);
    case StopService(id, r) => StopKeeps(env, s, id, r);
  }

  lemma NamedKeeps(env: Setting, s: Supervisor, op: Op)
    requires Wellformed(env) && Known(env, s) && Inv(env, s) && NamesService(op)
    ensures Inv(env, Step(env, s, op))
  {
    hide Inv, Known, Wellformed, Called;
    if op.id in s.services {
      CallKeeps(env, s, op);
    }
  }

  lemma StepKeeps(env: Setting, s: Supervisor, op: Op)
    requires Wellformed(env) && Inv(env, s)
    ensures Inv(env, Step(env, s, op))
  {
    InvKnown(env, s);
    hide Inv, Known, Wellformed, Step;
    if NamesService(op) {
      NamedKeeps(env, s, op);
    } else {
      UnnamedKeeps(env, s, op);
    }
  }

  lemma UnnamedKeeps(env: Setting, s: Supervisor, op: Op)
    requires Wellformed(env) && Known(env, s) && Inv(env, s) && !NamesService(op)
    ensures Inv(env, Step(env, s, op))
  {
    OrderKnown(env, s);
    hide Inv, Known, Wellformed, Called, FreezeGroup, UnfreezeGroup, Tick, StartAll;
    match op
    case StartEverything => StartAllKeeps(env, s, env.order);
    case FreezeServices(group) => GroupKeeps(env, s, group);
    case UnfreezeServices(group) => GroupKeeps(env, s, group);
    case ClockTick => ClockKeeps(env, s);
  }

  lemma OrderKnown(env: Setting, s: Supervisor)
    requires Wellformed(env) && Inv(env, s)
    ensures Known(env, s) && forall id <- env.order :: id in s.services
  {
  }

  lemma InitialOk(env: Setting)
    ensures Inv(env, Initial(env))
  {
    var s := Initial(env);
    forall id <- s.services ensures ServiceOk(env, s, id) {
      assert NoneRevoked(s.revoked, Current(env, s, id));
    }
  }

  lemma {:induction false} RunKeeps(env: Setting, s: Supervisor, ops: seq<Op>)
    requires Wellformed(env) && Inv(env, s)
    ensures Inv(env, Run(env, s, ops))
    decreases |ops|
  {
    assert Known(env, s);
    hide Inv, Wellformed, Step;
    if ops != [] {
      RunKeeps(env, s, ops[..|ops| - 1]);
      StepKeeps(env, Run(env, s, ops[..|ops| - 1]), ops[|ops| - 1]);
    }
  }

  // --- the results ---

  /** Over every run: the validator accepts the stream of every service, each event against the one
      before it. */
  lemma EveryStreamIsAccepted(env: Setting, ops: seq<Op>, id: Id)
    requires Wellformed(env) && id in env.manifests
    ensures StreamAccepted(Stream(Run(env, Initial(env), ops).log, id))
  {
    InitialOk(env);
    RunKeeps(env, Initial(env), ops);
    assert ServiceOk(env, Run(env, Initial(env), ops), id);
  }

  /** Over every run: the generation of a service that was ever started is one more than its
      restarts, which stay within its policy. */
  lemma GenerationsCountRestarts(env: Setting, ops: seq<Op>, id: Id)
    requires Wellformed(env) && id in env.manifests
    ensures var svc := Run(env, Initial(env), ops).services[id];
            && (svc.state != Exit ==> svc.generation > 0)
            && (svc.generation > 0 ==> svc.generation == 1 + svc.attempts <= 1 + env.manifests[id].maxAttempts)
  {
    InitialOk(env);
    RunKeeps(env, Initial(env), ops);
    assert ServiceOk(env, Run(env, Initial(env), ops), id);
  }

  /** Over every run: the grant table's keys are exactly the handles held, and a check passes exactly
      for a handle its service holds, never revoked, and a right its manifest lists. */
  lemma GrantsAreTheHeldHandles(env: Setting, ops: seq<Op>, h: Handle, id: Id, right: Right)
    requires Wellformed(env)
    ensures var s := Run(env, Initial(env), ops);
            && (h in s.grants <==> exists x <- s.services :: h in s.services[x].handles)
            && (Validates(s, h, id, right) <==>
                  && id in s.services && h in s.services[id].handles && h !in s.revoked
                  && h.index < |env.manifests[id].capabilities|
                  && right in env.manifests[id].capabilities[h.index].rights)
  {
    hide Inv, Run, Validates, Wellformed;
    InitialOk(env);
    RunKeeps(env, Initial(env), ops);
    var s := Run(env, Initial(env), ops);
    GrantKeys(env, s, h);
    CheckExact(env, s, h, id, right);
  }

  lemma GrantKeys(env: Setting, s: Supervisor, h: Handle)
    requires Inv(env, s)
    ensures h in s.grants <==> exists x <- s.services :: h in s.services[x].handles
  {
    forall x <- s.services
      ensures forall k <- s.services[x].handles :: k.service == x
    {
      HeldAreCurrent(env, s, x);
    }
    hide ServiceOk, RevokedOk;
  }

  lemma CheckExact(env: Setting, s: Supervisor, h: Handle, id: Id, right: Right)
    requires Inv(env, s)
    ensures Validates(s, h, id, right) <==>
              && id in s.services && h in s.services[id].handles && h !in s.revoked
              && h.index < |env.manifests[id].capabilities|
              && right in env.manifests[id].capabilities[h.index].rights
  {
    if id in s.services {
      HeldAreCurrent(env, s, id);
    }
    hide ServiceOk, RevokedOk;
  }

  lemma HeldAreCurrent(env: Setting, s: Supervisor, id: Id)
    requires Inv(env, s) && id in s.services
    ensures forall k <- s.services[id].handles :: k.service == id && k.generation == s.services[id].generation
  {
    assert ServiceOk(env, s, id);
  }

  // --- revoked for good ---

  lemma {:induction false} PeersRevokeNothing(env: Setting, s: Supervisor, names: seq<Id>, group: Id,
                                              exclude: Option<Id>)
    requires forall id <- names :: id in s.services && id in env.manifests
    ensures var t := FreezePeers(env, s, names, group, exclude);
            t.revoked == s.revoked && t.frozen == s.frozen
    decreases |names|
  {
    if names != [] {
      PeersRevokeNothing(env, s, names[..|names| - 1], group, exclude);
    }
  }

  lemma {:induction false} ThawRevokesNothing(env: Setting, s: Supervisor, names: seq<Id>, group: Id)
    requires forall id <- names :: id in s.services && id in env.manifests
    ensures ThawAll(env, s, names, group).revoked == s.revoked
    decreases |names|
  {
    if names != [] {
      ThawRevokesNothing(env, s, names[..|names| - 1], group);
    }
  }

  lemma GroupRevokesNothing(env: Setting, s: Supervisor, id: Id)
    requires Wellformed(env) && Known(env, s) && id in s.services
    ensures id in env.manifests && forall n <- env.names :: n in s.services && n in env.manifests
    ensures FreezePeers(env, s, env.names, env.manifests[id].group, Some(id)).revoked == s.revoked
  {
    PeersRevokeNothing(env, s, env.names, env.manifests[id].group, Some(id));
  }

  lemma FaultRevokes(env: Setting, s: Supervisor, id: Id, reason: string, code: Option<int>)
    requires Wellformed(env) && Known(env, s) && id in s.services
    ensures s.revoked <= Faulted(env, s, id, reason, code).revoked
  {
    var b := Left(env, s, id, Fault, FAULT, Extra(code, Some(Cut(reason)), None));
    assert Known(env, b);
    hide Cut, Wellformed;
    GroupRevokesNothing(env, b, id);
  }

  lemma ExitRevokes(env: Setting, s: Supervisor, id: Id, exitCode: int, why: Option<string>)
    requires Wellformed(env) && Known(env, s) && id in s.services
    ensures s.revoked <= Exited(env, s, id, exitCode, why).revoked
  {
    var given := why.Some? && why.value != "";
    var b := Left(env, s, id, Exit, EXIT, Extra(Some(exitCode), if given then Some(Cut(why.value)) else None, None));
    assert Known(env, b);
    hide Cut, Wellformed;
    GroupRevokesNothing(env, b, id);
  }

  /** Stopping a service revokes what it held, and nothing that concerns its record later undoes it. */
  lemma StopRevokes(env: Setting, s: Supervisor, id: Id, reason: string)
    requires Wellformed(env) && Known(env, s) && id in s.services
    ensures var t := Stopped(env, s, id, reason);
            && s.revoked <= t.revoked && id in t.services
            && (s.services[id].state != Exit ==> forall h <- s.services[id].handles :: h in t.revoked)
  {
    if s.services[id].state != Exit {
      var a := Emit(env, s, id, STOPPING, Extra(None, Some(Cut(reason)), None));
      var b := Left(env, a, id, Exit, EXIT, Extra(Some(0), Some(Cut(reason)), None));
      assert Known(env, b);
      hide Cut, Wellformed;
      GroupRevokesNothing(env, b, id);
    }
  }

  lemma TickOneRevokes(env: Setting, s: Supervisor, id: Id, now: int)
    requires Wellformed(env) && Known(env, s) && id in s.services
    ensures s.revoked <= TickOne(env, s, id, now).revoked
  {
    FaultRevokes(env, s, id, "heartbeat_timeout", None);
    hide Faulted, MayStart, Wellformed;
  }

  lemma {:induction false} TickRevokes(env: Setting, s: Supervisor, names: seq<Id>, now: int)
    requires Wellformed(env) && Known(env, s) && forall id <- names :: id in s.services
    ensures s.revoked <= TickAll(env, s, names, now).revoked
    decreases |names|
  {
    hide TickOne, Wellformed;
    if names != [] {
      TickRevokes(env, s, names[..|names| - 1], now);
      TickOneRevokes(env, TickAll(env, s, names[..|names| - 1], now), names[|names| - 1], now);
    }
  }

  lemma {:induction false} StartAllRevokes(env: Setting, s: Supervisor, order: seq<Id>)
    requires Wellformed(env) && Known(env, s) && forall id <- order :: id in s.services
    ensures s.revoked == StartAll(env, s, order).revoked
    decreases |order|
  {
    hide MayStart, Wellformed;
    if order != [] {
      StartAllRevokes(env, s, order[..|order| - 1]);
    }
  }

  lemma CallRevokes(env: Setting, s: Supervisor, op: Op)
    requires Wellformed(env) && Known(env, s) && NamesService(op) && op.id in s.services
    ensures s.revoked <= Called(env, s, op).revoked
  {
    hide Wellformed, Faulted, Exited, Stopped, HeartbeatAccepted, MayStart;
    match op
    case FaultService(id, r, c) => FaultRevokes(env, s, id, r, c);
    case ExitService(id, c, r) => ExitRevokes(env, s, id, c, r);
    case StopService(id, r) => StopRevokes(env, s, id, r);
    case _ =>
  }

  lemma StepRevokes(env: Setting, s: Supervisor, op: Op)
    requires Wellformed(env) && Known(env, s)
    ensures s.revoked <= Step(env, s, op).revoked
  {
    hide Called;
    match op
    case StartEverything =>
      StartAllRevokes(env, s, env.order);
    case FreezeServices(group) =>
      PeersRevokeNothing(env, s.(frozen := s.frozen + {group}), env.names, group, None);
    case UnfreezeServices(group) =>
      ThawRevokesNothing(env, s.(frozen := s.frozen - {group}), env.names, group);
    case ClockTick =>
      TickRevokes(env, Read1(s), env.names, Reading(env, s));
    case _ =>
      if op.id in s.services {
        CallRevokes(env, s, op);
      }
  }

  /** A handle once revoked never passes a check again, whatever is called afterwards. */
  lemma {:induction false} RevokedForever(env: Setting, s: Supervisor, after: seq<Op>, h: Handle)
    requires Wellformed(env) && Known(env, s) && h in s.revoked
    ensures var t := Run(env, s, after);
            h in t.revoked && forall id, right :: !Validates(t, h, id, right)
    decreases |after|
  {
    hide Step, Wellformed;
    if after != [] {
      RevokedForever(env, s, after[..|after| - 1], h);
      StepRevokes(env, Run(env, s, after[..|after| - 1]), after[|after| - 1]);
    }
  }

  // --- what a start grants ---

  /** Every listed right of every capability passes under the current handles. */
  ghost predicate AllPass(env: Setting, s: Supervisor, id: Id)
    requires id in s.services && id in env.manifests
  {
    forall i, right | 0 <= i < |env.manifests[id].capabilities| ::
      right in env.manifests[id].capabilities[i].rights ==>
          Validates(s, Handle(id, s.services[id].generation, i), id, right)
  }

  ghost predicate NonePass(env: Setting, s: Supervisor, id: Id)
    requires id in s.services && id in env.manifests
  {
    forall i, right | 0 <= i < |env.manifests[id].capabilities| ::
      !Validates(s, Handle(id, s.services[id].generation, i), id, right)
  }

  lemma StartShape(env: Setting, s: Supervisor, id: Id, ignoreDependencies: bool)
    requires Wellformed(env) && Known(env, s) && id in s.services && MayStart(env, s, id, ignoreDependencies)
    ensures var t := Start(env, s, id, ignoreDependencies);
            && id in t.services && t.revoked == s.revoked
            && t.services[id].generation == (if s.services[id].generation == 0 then 1 else s.services[id].generation)
            && t.services[id].handles == Current(env, t, id)
            && forall h <- t.services[id].handles :: h in t.grants && h.index < |env.manifests[id].capabilities|
                                                     && t.grants[h] == GrantOf(env.manifests[id], h)
  {
    hide MayStart, Wellformed;
  }

  /** A service that starts can use all its capabilities, or none: all exactly when no handle of its
      generation had been revoked.  A first start, and the start after a scheduled restart, grant all. */
  lemma StartGrantsAllOrNothing(env: Setting, ops: seq<Op>, id: Id, ignoreDependencies: bool)
    requires Wellformed(env) && id in env.manifests
        && MayStart(env, Run(env, Initial(env), ops), id, ignoreDependencies)
    ensures var s := Run(env, Initial(env), ops);
            var t := Start(env, s, id, ignoreDependencies);
            && id in t.services
            && (if NoneRevoked(s.revoked, Current(env, t, id)) then AllPass(env, t, id) else NonePass(env, t, id))
            && (s.services[id].generation == 0 || s.services[id].state == Restarting ==> AllPass(env, t, id))
  {
    InitialOk(env);
    RunKeeps(env, Initial(env), ops);
    var s := Run(env, Initial(env), ops);
    var t := Start(env, s, id, ignoreDependencies);
    StartShape(env, s, id, ignoreDependencies);
    RevokedAtStart(env, s, t, id);
    hide Run, Start, Inv, MayStart, Wellformed;
    AllOrNothing(env, t, id);
  }

  lemma RevokedAtStart(env: Setting, s: Supervisor, t: Supervisor, id: Id)
    requires Inv(env, s) && id in s.services && id in t.services && t.revoked == s.revoked
    requires t.services[id].generation == if s.services[id].generation == 0 then 1 else s.services[id].generation
    ensures id in env.manifests
    ensures AllRevoked(t.revoked, Current(env, t, id)) || NoneRevoked(t.revoked, Current(env, t, id))
    ensures s.services[id].generation == 0 || s.services[id].state == Restarting ==>
              NoneRevoked(t.revoked, Current(env, t, id))
  {
    assert ServiceOk(env, s, id);
    hide RecordOk, StreamOk, GrantsOk;
    if s.services[id].generation > 0 {
      assert Current(env, t, id) == Current(env, s, id);
    }
  }

  lemma AllOrNothing(env: Setting, t: Supervisor, id: Id)
    requires id in t.services && id in env.manifests && t.services[id].handles == Current(env, t, id)
    requires forall h <- t.services[id].handles :: h in t.grants && h.index < |env.manifests[id].capabilities|
                                                   && t.grants[h] == GrantOf(env.manifests[id], h)
    requires AllRevoked(t.revoked, Current(env, t, id)) || NoneRevoked(t.revoked, Current(env, t, id))
    ensures if NoneRevoked(t.revoked, Current(env, t, id)) then AllPass(env, t, id) else NonePass(env, t, id)
  {
    var hs := Current(env, t, id);
    forall i | 0 <= i < |hs|
      ensures hs[i] == Handle(id, t.services[id].generation, i) && hs[i] in t.services[id].handles
    {
    }
    hide Current;
  }

  /** Stopping and starting again keeps the generation, and so brings back only revoked handles. */
  lemma StopSpendsTheGeneration(env: Setting, s: Supervisor, id: Id, reason: string, i: nat, right: Right)
    requires Wellformed(env) && Inv(env, s) && id in s.services && s.services[id].state != Exit
    requires s.services[id].handles != []
    requires MayStart(env, Stopped(env, s, id, reason), id, true) && i < |env.manifests[id].capabilities|
    ensures var t := Start(env, Stopped(env, s, id, reason), id, true);
            && id in t.services && t.services[id].generation == s.services[id].generation
            && !Validates(t, Handle(id, t.services[id].generation, i), id, right)
  {
    assert ServiceOk(env, s, id);
    var u := Stopped(env, s, id, reason);
    StopRevokes(env, s, id, reason);
    StopGeneration(env, s, id, reason);
    StartShape(env, u, id, true);
    assert Current(env, s, id)[i] in s.services[id].handles;
  }

  lemma StopGeneration(env: Setting, s: Supervisor, id: Id, reason: string)
    requires Wellformed(env) && Known(env, s) && id in s.services
    ensures var u := Stopped(env, s, id, reason);
            id in u.services && u.services[id].generation == s.services[id].generation
  {
    if s.services[id].state != Exit {
      var a := Emit(env, s, id, STOPPING, Extra(None, Some(Cut(reason)), None));
      var b := Left(env, a, id, Exit, EXIT, Extra(Some(0), Some(Cut(reason)), None));
      assert Known(env, b) && forall n <- env.names :: n in b.services && n in env.manifests;
      hide Wellformed, FreezePeers, Cut;
      PeersSpare(env, b, env.names, env.manifests[id].group, id);
    }
  }

  lemma RunOneOp(env: Setting, s: Supervisor, op: Op)
    requires Wellformed(env) && Known(env, s)
    ensures Run(env, s, [op]) == Step(env, s, op)
  {
    hide Step;
    assert [op][..0] == [];
    assert Run(env, s, []) == s;
  }

  lemma RunTwoOps(env: Setting, s: Supervisor, a: Op, b: Op)
    requires Wellformed(env) && Known(env, s)
    ensures Run(env, s, [a, b]) == Step(env, Step(env, s, a), b)
  {
    hide Step;
    assert [a, b][..1] == [a];
    RunOneOp(env, s, a);
  }

  lemma FirstStart(env: Setting, id: Id)
    requires Wellformed(env) && id in env.manifests
    ensures var s := Start(env, Initial(env), id, true);
            && Inv(env, s) && id in s.services && s.services[id].state == Starting && s.frozen == {}
            && s.services[id].generation == 1 && s.services[id].handles == Current(env, s, id) && AllPass(env, s, id)
  {
    var s0 := Initial(env);
    InitialOk(env);
    StartKeeps(env, s0, id, true);
    StartShape(env, s0, id, true);
    RevokedAtStart(env, s0, Start(env, s0, id, true), id);
    hide Wellformed, Inv;
    AllOrNothing(env, Start(env, s0, id, true), id);
  }

  lemma StopLeavesStartable(env: Setting, s: Supervisor, id: Id, reason: string)
    requires Wellformed(env) && Known(env, s) && id in s.services && s.services[id].state != Exit && s.frozen == {}
    ensures MayStart(env, Stopped(env, s, id, reason), id, true)
  {
    var a := Emit(env, s, id, STOPPING, Extra(None, Some(Cut(reason)), None));
    var b := Left(env, a, id, Exit, EXIT, Extra(Some(0), Some(Cut(reason)), None));
    assert Known(env, b) && forall n <- env.names :: n in b.services && n in env.manifests;
    hide Wellformed, FreezePeers, Cut;
    PeersSpare(env, b, env.names, env.manifests[id].group, id);
    PeersRevokeNothing(env, b, env.names, env.manifests[id].group, Some(id));
  }

  /** In every setting: a service that is started, stopped and started again holds its handles both
      times; every listed right passes the first time and none the second. */
  lemma StopThenStartLosesTheRights(env: Setting, id: Id, reason: string, i: nat, right: Right)
    requires Wellformed(env) && id in env.manifests && i < |env.manifests[id].capabilities|
    requires right in env.manifests[id].capabilities[i].rights
    ensures var s := Run(env, Initial(env), [StartService(id, true)]);
            var t := Run(env, s, [StopService(id, reason), StartService(id, true)]);
            var h := Handle(id, 1, i);
            && id in s.services && h in s.services[id].handles && Validates(s, h, id, right)
            && id in t.services && h in t.services[id].handles && !Validates(t, h, id, right)
  {
    FirstStart(env, id);
    var s := Start(env, Initial(env), id, true);
    InvKnown(env, s);
    StartRun(env, Initial(env), id);
    StopStartRun(env, s, id, reason);
    SecondStart(env, s, id, reason, i, right);
    assert Current(env, s, id)[i] == Handle(id, 1, i);
    hide Inv, Known, Wellformed, Start, Stopped, Run, Validates, Initial;
  }

  lemma StartRun(env: Setting, s: Supervisor, id: Id)
    requires Wellformed(env) && Known(env, s) && id in s.services
    ensures Run(env, s, [StartService(id, true)]) == Start(env, s, id, true)
  {
    hide Wellformed, Step, Start, Run;
    RunOneOp(env, s, StartService(id, true));
    StepCalls(env, s, StartService(id, true));
  }

  lemma StopStartRun(env: Setting, s: Supervisor, id: Id, reason: string)
    requires Wellformed(env) && Known(env, s) && id in s.services
    ensures var u := Stopped(env, s, id, reason);
            && Known(env, u) && id in u.services
            && Run(env, s, [StopService(id, reason), StartService(id, true)]) == Start(env, u, id, true)
  {
    hide Wellformed, Step, Start, Stopped, Run;
    RunTwoOps(env, s, StopService(id, reason), StartService(id, true));
    StepCalls(env, s, StopService(id, reason));
    StepCalls(env, Stopped(env, s, id, reason), StartService(id, true));
  }

  lemma SecondStart(env: Setting, s: Supervisor, id: Id, reason: string, i: nat, right: Right)
    requires Wellformed(env) && Inv(env, s) && id in s.services && s.services[id].state != Exit && s.frozen == {}
    requires i < |env.manifests[id].capabilities| && s.services[id].handles == Current(env, s, id)
    ensures var u := Stopped(env, s, id, reason);
            && Known(env, u) && id in u.services
            && var t, h := Start(env, u, id, true), Handle(id, s.services[id].generation, i);
               id in t.services && h in t.services[id].handles && !Validates(t, h, id, right)
  {
    StopLeavesStartable(env, s, id, reason);
    StopSpendsTheGeneration(env, s, id, reason, i, right);
    var u := Stopped(env, s, id, reason);
    StopGeneration(env, s, id, reason);
    StopKeeps(env, s, id, reason);
    InvKnown(env, u);
    StartShape(env, u, id, true);
    hide Inv, Start, Stopped, MayStart, Wellformed, Validates;
    var t := Start(env, u, id, true);
    assert Current(env, t, id)[i] == Handle(id, s.services[id].generation, i);
  }

  lemma InvKnown(env: Setting, s: Supervisor)
    requires Inv(env, s)
    ensures Known(env, s)
  {
  }

  /** A scheduled restart begins a generation none of whose handles is revoked. */
  lemma RestartIsFresh(env: Setting, s: Supervisor, id: Id, reason: string)
    requires Inv(env, s) && id in s.services && id in env.manifests && MayRestart(env, s, id)
    ensures var t := ScheduleRestart(env, s, id, reason);
            && id in t.services && t.services[id].state == Restarting
            && t.services[id].generation == s.services[id].generation + 1
            && NoneRevoked(t.revoked, Current(env, t, id))
  {
    RevokeKeeps(env, s, id);
    hide ServiceOk, GrantsOk;
    assert RevokedOk(Revoke(s, id));
  }
}
