/** The Supervisor's service life cycle: states, generations, capability grants and the event stream. */
module SupervisorModel {
  import opened Words

  type Id = string

  datatype Right = Read | Write | Execute | Map | Send | Receive | Transfer | Inspect

  datatype Capability = Capability(resource: string, rights: set<Right>)

  datatype Mode = Never | OnFault | Always

  /** The checked manifest of a service, as far as its life cycle reads it.  Times in milliseconds. */
  datatype Manifest = Manifest(
    dependencies: seq<Id>, capabilities: seq<Capability>, timeout: nat, grace: nat,
    mode: Mode, maxAttempts: nat, backoff: nat, group: Id)

  datatype State = Starting | Ready | Heartbeat | Fault | Exit | Frozen | Restarting

  datatype EventKind =
    | STARTING | READY | HEARTBEAT | FAULT | EXIT | FROZEN | RESTARTING | STOPPING

  /** A grant's handle is the text "service:generation:index"; no service name contains a colon. */
  datatype Handle = Handle(service: Id, generation: nat, index: nat)

  datatype Grant = Grant(service: Id, generation: nat, resource: string, rights: set<Right>)

  datatype Service = Service(
    state: State, generation: nat, sequence: nat, nonce: Option<string>,
    started: Option<int>, lastHeartbeat: Option<int>, attempts: nat, due: Option<int>, handles: seq<Handle>)

  /** An emitted event.  The optional fields are present or absent; a heartbeat's nonce may be null. */
  datatype Event = Event(
    kind: EventKind, service: Id, sequence: int, monotonic: int, generation: Option<nat>,
    exitCode: Option<int>, reason: Option<string>, heartbeatNonce: Option<Option<string>>)

  datatype Supervisor = Supervisor(
    services: map<Id, Service>, revoked: set<Handle>, grants: map<Handle, Grant>, frozen: set<Id>,
    lastMonotonic: int, readings: nat, nonces: nat, log: seq<Event>)

  /** What stays fixed: the services in dictionary order, their manifests, their start order, and
      what the clock and the nonce factory answer when asked the k-th time. */
  datatype Setting = Setting(
    names: seq<Id>, manifests: map<Id, Manifest>, order: seq<Id>, clock: nat -> int, nonce: nat -> string)

  const MILLISECOND: int := 1_000_000

  ghost predicate Wellformed(env: Setting) {
    && (forall id :: id in env.names <==> id in env.manifests)
    && (forall id <- env.order :: id in env.manifests)
    && forall id <- env.manifests :: forall d <- env.manifests[id].dependencies :: d in env.manifests
  }

  function Idle(): Service {
    Service(Exit, 0, 0, None, None, None, 0, None, [])
  }

  function Initial(env: Setting): Supervisor {
    Supervisor(map id <- env.manifests :: Idle(), {}, map[], {}, 0, 0, 0, [])
  }

  predicate Known(env: Setting, s: Supervisor) {
    s.services.Keys == env.manifests.Keys
  }

  // --- the small steps ---

  function Put(s: Supervisor, id: Id, svc: Service): Supervisor {
    s.(services := s.services[id := svc])
  }

  function Reading(env: Setting, s: Supervisor): int {
    env.clock(s.readings)
  }

  /** The clock has been read once more. */
  function Read1(s: Supervisor): Supervisor {
    s.(readings := s.readings + 1)
  }

  function Max(a: int, b: int): int {
    if a >= b then a else b
  }

  datatype Extra = Extra(exitCode: Option<int>, reason: Option<string>, nonce: Option<Option<string>>)

  const PLAIN := Extra(None, None, None)

  /** Write the next event of a service. */
  function Emit(env: Setting, s: Supervisor, id: Id, kind: EventKind, x: Extra): Supervisor
    requires id in s.services
  {
    var svc := s.services[id];
    var now := Max(Reading(env, s), s.lastMonotonic);
    var item := Event(kind, id, svc.sequence + 1, now, if svc.generation == 0 then None else Some(svc.generation),
                      x.exitCode, x.reason, x.nonce);
    Supervisor(s.services[id := svc.(sequence := svc.sequence + 1)], s.revoked, s.grants, s.frozen,
               now, s.readings + 1, s.nonces, s.log + [item])
  }

  function Handles(id: Id, generation: nat, n: nat): (hs: seq<Handle>)
    ensures |hs| == n
  {
    seq(n, i requires 0 <= i < n => Handle(id, generation, i))
  }

  function GrantOf(m: Manifest, h: Handle): Grant
    requires h.index < |m.capabilities|
  {
    Grant(h.service, h.generation, m.capabilities[h.index].resource, m.capabilities[h.index].rights)
  }

  /** Grants for every capability of the manifest, under the handles of the current generation. */
  function Mint(env: Setting, s: Supervisor, id: Id): Supervisor
    requires id in s.services && id in env.manifests
  {
    var svc, m := s.services[id], env.manifests[id];
    var hs := Handles(id, svc.generation, |m.capabilities|);
    var more := map h | h in hs :: GrantOf(m, h);
    Put(s, id, svc.(handles := hs)).(grants := s.grants + more)
  }

  function Revoke(s: Supervisor, id: Id): Supervisor
    requires id in s.services
  {
    var hs := set h | h in s.services[id].handles;
    Put(s, id, s.services[id].(handles := [])).(revoked := s.revoked + hs, grants := s.grants - hs)
  }

  // --- the operations ---

  predicate Up(st: State) {
    st == Ready || st == Heartbeat
  }

  predicate DependenciesUp(env: Setting, s: Supervisor, id: Id)
    requires Wellformed(env) && Known(env, s) && id in s.services
  {
    forall d <- env.manifests[id].dependencies :: Up(s.services[d].state)
  }

  predicate MayStart(env: Setting, s: Supervisor, id: Id, ignoreDependencies: bool)
    requires Wellformed(env) && Known(env, s) && id in s.services
  {
    && env.manifests[id].group !in s.frozen
    && (ignoreDependencies || DependenciesUp(env, s, id))
    && (var svc := s.services[id];
        svc.state != Starting && !Up(svc.state)
        && (svc.state == Restarting && svc.due.Some? ==> Reading(env, s) >= svc.due.value))
  }

  /** The state when the refusals are behind: the clock has been read if a restart was due. */
  function Checked(s: Supervisor, id: Id): Supervisor
    requires id in s.services
  {
    var svc := s.services[id];
    if svc.state == Restarting && svc.due.Some? then Read1(s) else s
  }

  /** The clock is read before a refusal too, unless an earlier test refused. */
  function Refused(env: Setting, s: Supervisor, id: Id, ignoreDependencies: bool): Supervisor
    requires Wellformed(env) && Known(env, s) && id in s.services
  {
    if env.manifests[id].group !in s.frozen
       && (ignoreDependencies || DependenciesUp(env, s, id))
    then Checked(s, id) else s
  }

  /** The record of a service that starts: a first generation, a nonce if the restart left none. */
  function Begun(env: Setting, s: Supervisor, id: Id): Supervisor
    requires id in s.services
  {
    var svc := s.services[id];
    var keeps := svc.state == Restarting && svc.nonce.Some?;
    var nonces := if keeps then s.nonces else s.nonces + 1;
    var now := Reading(env, s);
    var begun := Service(Starting, if svc.generation == 0 then 1 else svc.generation, svc.sequence,
                         if keeps then svc.nonce else Some(env.nonce(s.nonces)), Some(now), Some(now),
                         svc.attempts, None, svc.handles);
    Supervisor(s.services[id := begun], s.revoked, s.grants, s.frozen, s.lastMonotonic, s.readings + 1, nonces, s.log)
  }

  function Start(env: Setting, s: Supervisor, id: Id, ignoreDependencies: bool): Supervisor
    requires Wellformed(env) && Known(env, s) && id in s.services
  {
    if MayStart(env, s, id, ignoreDependencies) then
      Emit(env, Mint(env, Begun(env, Checked(s, id), id), id), id, STARTING, PLAIN)
    else Refused(env, s, id, ignoreDependencies)
  }

  /** Mark a service and note the time of its last heartbeat. */
  function Marked(env: Setting, s: Supervisor, id: Id, st: State): Supervisor
    requires id in s.services
  {
    Read1(Put(s, id, s.services[id].(state := st, lastHeartbeat := Some(Reading(env, s)))))
  }

  function BecomeReady(env: Setting, s: Supervisor, id: Id, generation: Option<nat>, nonce: Option<string>): Supervisor
    requires id in s.services
  {
    var svc := s.services[id];
    if (generation.Some? && generation.value != svc.generation) || (nonce.Some? && nonce != svc.nonce) then s
    else if svc.state != Starting then s
    else Emit(env, Marked(env, s, id, Ready), id, READY, PLAIN)
  }

  function Lower(c: char): char {
    if 'A' <= c <= 'Z' then (c as int + 32) as char else c
  }

  function LowerAll(s: string): string {
    if s == "" then "" else [Lower(s[0])] + LowerAll(s[1..])
  }

  predicate HeartbeatAccepted(svc: Service, generation: nat, nonce: string) {
    && generation == svc.generation
    && LowerAll(nonce) == LowerAll(if svc.nonce.Some? then svc.nonce.value else "")
    && svc.state != Fault && svc.state != Frozen && svc.state != Exit && svc.state != Restarting
  }

  function Beat(env: Setting, s: Supervisor, id: Id, generation: nat, nonce: string): Supervisor
    requires id in s.services
  {
    if !HeartbeatAccepted(s.services[id], generation, nonce) then s
    else
      var r := if s.services[id].state == Starting then BecomeReady(env, s, id, Some(generation), Some(nonce)) else s;
      Emit(env, Marked(env, r, id, Heartbeat), id, HEARTBEAT, Extra(None, None, Some(r.services[id].nonce)))
  }

  /** Freeze one peer, if it is one. */
  function FreezeOne(env: Setting, s: Supervisor, id: Id, group: Id, exclude: Option<Id>): Supervisor
    requires id in s.services && id in env.manifests
  {
    if env.manifests[id].group != group || exclude == Some(id) || s.services[id].state == Exit then s
    else if s.services[id].state == Frozen then s
    else Emit(env, Put(s, id, s.services[id].(state := Frozen)), id, FROZEN, Extra(None, Some("task_group"), None))
  }

  function FreezePeers(env: Setting, s: Supervisor, names: seq<Id>, group: Id, exclude: Option<Id>): (t: Supervisor)
    requires forall id <- names :: id in s.services && id in env.manifests
    ensures t.services.Keys == s.services.Keys
    decreases |names|
  {
    if names == [] then s
    else FreezeOne(env, FreezePeers(env, s, names[..|names| - 1], group, exclude), names[|names| - 1], group, exclude)
  }

  /** Freezing peers leaves the excluded service as it is. */
  lemma {:induction false} PeersSpare(env: Setting, s: Supervisor, names: seq<Id>, group: Id, id: Id)
    requires id in s.services && forall n <- names :: n in s.services && n in env.manifests
    ensures FreezePeers(env, s, names, group, Some(id)).services[id] == s.services[id]
    decreases |names|
  {
    if names != [] {
      PeersSpare(env, s, names[..|names| - 1], group, id);
    }
  }

  /** An explicit freeze also bars the group from starting. */
  function FreezeGroup(env: Setting, s: Supervisor, group: Id): Supervisor
    requires Wellformed(env) && Known(env, s)
  {
    FreezePeers(env, s.(frozen := s.frozen + {group}), env.names, group, None)
  }

  function ThawOne(env: Setting, s: Supervisor, id: Id, group: Id): Supervisor
    requires id in s.services && id in env.manifests
  {
    if env.manifests[id].group == group && s.services[id].state == Frozen
    then Emit(env, Marked(env, s, id, Ready), id, READY, Extra(None, Some("task_group_unfrozen"), None))
    else s
  }

  function ThawAll(env: Setting, s: Supervisor, names: seq<Id>, group: Id): (t: Supervisor)
    requires forall id <- names :: id in s.services && id in env.manifests
    ensures t.services.Keys == s.services.Keys
    decreases |names|
  {
    if names == [] then s
    else ThawOne(env, ThawAll(env, s, names[..|names| - 1], group), names[|names| - 1], group)
  }

  function UnfreezeGroup(env: Setting, s: Supervisor, group: Id): Supervisor
    requires Wellformed(env) && Known(env, s)
  {
    ThawAll(env, s.(frozen := s.frozen - {group}), env.names, group)
  }

  predicate MayRestart(env: Setting, s: Supervisor, id: Id)
    requires id in s.services && id in env.manifests
  {
    env.manifests[id].mode != Never && s.services[id].attempts < env.manifests[id].maxAttempts
  }

  /** The next generation, under a new nonce, due after the backoff. */
  function Bumped(env: Setting, s: Supervisor, id: Id): Supervisor
    requires id in s.services && id in env.manifests
  {
    var svc := s.services[id];
    var next := Service(Restarting, svc.generation + 1, svc.sequence, Some(env.nonce(s.nonces)), svc.started,
                        svc.lastHeartbeat, svc.attempts + 1,
                        Some(Reading(env, s) + env.manifests[id].backoff * MILLISECOND), svc.handles);
    Supervisor(s.services[id := next], s.revoked, s.grants, s.frozen, s.lastMonotonic, s.readings + 1,
               s.nonces + 1, s.log)
  }

  function ScheduleRestart(env: Setting, s: Supervisor, id: Id, reason: string): Supervisor
    requires id in s.services && id in env.manifests
  {
    if !MayRestart(env, s, id) then Put(s, id, s.services[id].(due := None))
    else Emit(env, Bumped(env, Revoke(s, id), id), id, RESTARTING, Extra(None, Some(reason), None))
  }

  function Cut(reason: string): string {
    if |reason| <= 256 then reason else reason[..256]
  }

  function Faulted(env: Setting, s: Supervisor, id: Id, reason: string, exitCode: Option<int>): Supervisor
    requires Wellformed(env) && Known(env, s) && id in s.services
  {
    if s.services[id].state == Exit then s
    else
      var a := Revoke(Put(s, id, s.services[id].(state := Fault)), id);
      var b := Emit(env, a, id, FAULT, Extra(exitCode, Some(Cut(reason)), None));
      var c := FreezePeers(env, b, env.names, env.manifests[id].group, Some(id));
      var restarts := MayRestart(env, c, id);
      var d := ScheduleRestart(env, c, id, reason);
      if restarts then d else Put(d, id, d.services[id].(state := Fault))
  }

  function Exited(env: Setting, s: Supervisor, id: Id, exitCode: int, reason: Option<string>): Supervisor
    requires Wellformed(env) && Known(env, s) && id in s.services
  {
    if s.services[id].state == Exit then s
    else
      var given := reason.Some? && reason.value != "";
      var a := Revoke(Put(s, id, s.services[id].(state := Exit)), id);
      var b := Emit(env, a, id, EXIT, Extra(Some(exitCode), if given then Some(Cut(reason.value)) else None, None));
      var c := FreezePeers(env, b, env.names, env.manifests[id].group, Some(id));
      if env.manifests[id].mode != Always then c
      else ScheduleRestart(env, c, id, if given then reason.value else "exit")
  }

  function Stopped(env: Setting, s: Supervisor, id: Id, reason: string): Supervisor
    requires Wellformed(env) && Known(env, s) && id in s.services
  {
    if s.services[id].state == Exit then s
    else
      var a := Emit(env, s, id, STOPPING, Extra(None, Some(Cut(reason)), None));
      var b := Revoke(Put(a, id, a.services[id].(state := Exit)), id);
      var c := Emit(env, b, id, EXIT, Extra(Some(0), Some(Cut(reason)), None));
      FreezePeers(env, c, env.names, env.manifests[id].group, Some(id))
  }

  /** One service at a clock tick: start what is due, fault what has been silent too long. */
  function TickOne(env: Setting, s: Supervisor, id: Id, now: int): Supervisor
    requires Wellformed(env) && Known(env, s) && id in s.services
  {
    var svc, m := s.services[id], env.manifests[id];
    if svc.state == Restarting && svc.due.Some? && now >= svc.due.value then Start(env, s, id, false)
    else if (svc.state == Starting || Up(svc.state)) && svc.lastHeartbeat.Some?
            && now - svc.lastHeartbeat.value >= (m.timeout + m.grace) * MILLISECOND
    then Faulted(env, s, id, "heartbeat_timeout", None)
    else s
  }

  function TickAll(env: Setting, s: Supervisor, names: seq<Id>, now: int): (t: Supervisor)
    requires Wellformed(env) && Known(env, s) && forall id <- names :: id in s.services
    ensures Known(env, t)
    decreases |names|
  {
    if names == [] then s
    else TickOne(env, TickAll(env, s, names[..|names| - 1], now), names[|names| - 1], now)
  }

  function Tick(env: Setting, s: Supervisor): Supervisor
    requires Wellformed(env) && Known(env, s)
  {
    TickAll(env, Read1(s), env.names, Reading(env, s))
  }

  function StartAll(env: Setting, s: Supervisor, order: seq<Id>): (t: Supervisor)
    requires Wellformed(env) && Known(env, s) && forall id <- order :: id in s.services
    ensures Known(env, t)
    decreases |order|
  {
    if order == [] then s
    else Start(env, StartAll(env, s, order[..|order| - 1]), order[|order| - 1], true)
  }

  predicate Validates(s: Supervisor, h: Handle, id: Id, right: Right) {
    && h in s.grants && s.grants[h].service == id && right in s.grants[h].rights
    && h !in s.revoked && id in s.services && s.grants[h].generation == s.services[id].generation
  }

  // --- runs ---

  datatype Op =
    | StartService(id: Id, ignoreDependencies: bool) | StartEverything
    | ReadyService(id: Id, generation: Option<nat>, nonce: Option<string>)
    | BeatService(id: Id, beatGeneration: nat, beatNonce: string)
    | FreezeServices(group: Id) | UnfreezeServices(group: Id)
    | FaultService(id: Id, reason: string, code: Option<int>)
    | ExitService(id: Id, exitCode: int, why: Option<string>) | StopService(id: Id, reason: string)
    | ClockTick

  predicate NamesService(op: Op) {
    op.StartService? || op.ReadyService? || op.BeatService? || op.FaultService? || op.ExitService? || op.StopService?
  }

  /** What a call about one service does. */
  function Called(env: Setting, s: Supervisor, op: Op): (t: Supervisor)
    requires Wellformed(env) && Known(env, s) && NamesService(op) && op.id in s.services
    ensures Known(env, t)
  {
    match op
    case StartService(id, ignore) => Start(env, s, id, ignore)
    case ReadyService(id, g, n) => BecomeReady(env, s, id, g, n)
    case BeatService(id, g, n) => Beat(env, s, id, g, n)
    case FaultService(id, r, c) => Faulted(env, s, id, r, c)
    case ExitService(id, c, r) => Exited(env, s, id, c, r)
    case StopService(id, r) => Stopped(env, s, id, r)
  }

  /** One call; a name the Supervisor does not know raises and changes nothing. */
  function Step(env: Setting, s: Supervisor, op: Op): (t: Supervisor)
    requires Wellformed(env) && Known(env, s)
    ensures Known(env, t)
  {
    match op
    case StartEverything => StartAll(env, s, env.order)
    case FreezeServices(group) => FreezeGroup(env, s, group)
    case UnfreezeServices(group) => UnfreezeGroup(env, s, group)
    case ClockTick => Tick(env, s)
    case _ => if op.id in s.services then Called(env, s, op) else s
  }

  function Run(env: Setting, s: Supervisor, ops: seq<Op>): (t: Supervisor)
    requires Wellformed(env) && Known(env, s)
    ensures Known(env, t)
    decreases |ops|
  {
    if ops == [] then s else Step(env, Run(env, s, ops[..|ops| - 1]), ops[|ops| - 1])
  }

  // --- the validator of the protocol ---

  /** The check of one event against the one before it in the same stream. */
  predicate Accepts(item: Event, previous: Option<Event>) {
    && item.sequence >= 0 && item.monotonic >= 0
    && (previous.Some? ==>
          var p := previous.value;
          && item.service == p.service && item.sequence > p.sequence && item.monotonic >= p.monotonic
          && (item.generation.Some? && p.generation.Some? ==> item.generation.value >= p.generation.value))
    && (item.kind == HEARTBEAT ==> item.heartbeatNonce.Some?)
  }

  /** The events of one service, in order. */
  function Stream(log: seq<Event>, id: Id): seq<Event> {
    if log == [] then []
    else
      var front := Stream(log[..|log| - 1], id);
      if log[|log| - 1].service == id then front + [log[|log| - 1]] else front
  }

  function Preceding(stream: seq<Event>, k: nat): Option<Event>
    requires k <= |stream|
  {
    if k == 0 then None else Some(stream[k - 1])
  }

  predicate StreamAccepted(stream: seq<Event>) {
    forall k | 0 <= k < |stream| :: Accepts(stream[k], Preceding(stream, k))
  }
}
