/**
 * The copilot session manager: one session per device, indexed both by
 * device id (a Map kept in insertion order) and by session id, a set of
 * devices whose session is running a task, idle reclaim of sessions that
 * are not running, and the bookkeeping around batch execution (result
 * categorisation and error normalisation).
 *
 * The AutoGLM agent, the event emitters and the timers are not part of this
 * model: Date.now() is the `now` parameter of each operation, randomUUID is
 * a given function from the number of ids drawn so far to the next id
 * (assumed never to repeat), and stopping a task is recorded as an abort
 * request (device id and reason) sent to that device's agent.
 */
module CopilotSessions {
  import opened Wrappers
  import opened JsValues

  /** DEFAULT_IDLE_TIMEOUT: thirty minutes, in milliseconds. */
  const DefaultIdleTimeout: int := 30 * 60 * 1000
  /** The concurrency limit when neither the caller nor the store gives one. */
  const DefaultConcurrency: int := 5
  /** The reason destroySession gives when it stops a running task. */
  const DestroyReason: string := "会话被销毁"
  /** The reason destroyAll gives when it stops a running task. */
  const DestroyAllReason: string := "批量销毁会话"
  /** The message of a normalised network error. */
  const NetworkMessage: string := "网络异常，请稍后重试"
  /** The message of a normalised error that has none of its own. */
  const UnknownMessage: string := "未知错误"

  /** A generator of ids that never repeats itself. */
  ghost predicate Injective(ids: nat -> string) {
    forall i: nat, j: nat :: ids(i) == ids(j) ==> i == j
  }

  predicate Distinct(xs: seq<string>) {
    forall i, j :: 0 <= i < j < |xs| ==> xs[i] != xs[j]
  }

  /** The keys of `xs` not in `ds`, in their order. */
  function Without(xs: seq<string>, ds: set<string>): (r: seq<string>)
    ensures forall y :: y in r <==> y in xs && y !in ds
    ensures Distinct(xs) ==> Distinct(r)
  {
    if xs == [] then []
    else
      var rest := Without(xs[1..], ds);
      assert Distinct(xs) ==> Distinct(xs[1..]) && xs[0] !in xs[1..];
      (if xs[0] in ds then [] else [xs[0]]) + rest
  }

  /** Deleting keys one set after another is deleting their union. */
  lemma {:induction false} WithoutWithout(xs: seq<string>, a: set<string>, b: set<string>)
    ensures Without(Without(xs, a), b) == Without(xs, a + b)
  {
    if xs != [] {
      WithoutWithout(xs[1..], a, b);
      var w := Without(xs, a);
      if xs[0] !in a {
        assert w[0] == xs[0] && w[1..] == Without(xs[1..], a);
      } else {
        assert w == Without(xs[1..], a);
      }
    }
  }

  /** Deleting keys that are not there changes nothing. */
  lemma {:induction false} WithoutAbsent(xs: seq<string>, ds: set<string>)
    requires forall d :: d in ds ==> d !in xs
    ensures Without(xs, ds) == xs
  {
    if xs != [] {
      WithoutAbsent(xs[1..], ds);
    }
  }

  /**
   * `n > t` for an integer idle time n and the configured timeout t, under
   * JavaScript's comparison: false when t converts to NaN.
   */
  predicate Exceeds(n: int, t: Value) {
    match ToNumber(t)
    case Num(m) => n > m
    case Infinity(positive) => !positive
    case _ => false
  }

  /** `t <= 0` for a number t: false for NaN. */
  predicate AtMostZero(t: Value) {
    match t
    case Num(m) => m <= 0
    case Infinity(positive) => !positive
    case _ => false
  }

  /** The timeouts setIdleTimeout accepts: numbers that are not `<= 0`. */
  predicate AcceptedTimeout(t: Value) {
    TypeOf(t) == "number" && !AtMostZero(t)
  }

  /**
   * The accepted timeouts are the positive integers, +Infinity and NaN;
   * with either of the last two no session is ever idle long enough.
   */
  lemma AcceptedTimeoutMeaning(t: Value, n: int)
    ensures AcceptedTimeout(t) <==> (t.Num? && t.n > 0) || t == Infinity(true) || t.NaN?
    ensures t == Infinity(true) || t.NaN? ==> !Exceeds(n, t)
  {
  }

  /** The session's metadata.type. */
  const SessionType: string := "copilot"

  /**
   * A session: its random id, its device, and its metadata (creation and
   * last activity times, current task, running flag) and step counter.
   */
  datatype SessionState = SessionState(
    id: string, deviceId: string, createdAt: int, lastActiveAt: int,
    currentTask: Option<string>, isRunning: bool, stepCounter: nat)

  /** A session as _createNewSession builds it: created and last active now, no task, not running, no steps. */
  function NewSession(id: string, deviceId: string, now: int): SessionState {
    SessionState(id, deviceId, now, now, None, false, 0)
  }

  /** Writing a key twice leaves the second value. */
  lemma UpdateTwice<K, V>(m: map<K, V>, k: K, a: V, b: V)
    ensures m[k := a][k := b] == m[k := b]
  {
  }

  /** The session after clearRunningState: no steps, not running, no task, touched now. */
  function Cleared(s: SessionState, now: int): (r: SessionState)
    ensures (r.id, r.deviceId, r.createdAt) == (s.id, s.deviceId, s.createdAt)
    ensures !r.isRunning && r.stepCounter == 0 && r.currentTask == None && r.lastActiveAt == now
  {
    s.(stepCounter := 0, isRunning := false, currentTask := None, lastActiveAt := now)
  }

  /** A session the idle check reclaims: not running, and idle longer than the timeout. */
  predicate IsIdle(s: SessionState, now: int, timeout: Value) {
    !s.isRunning && Exceeds(now - s.lastActiveAt, timeout)
  }

  /**
   * The two indexes and the insertion order agree: every device is listed
   * once, every session sits under its own device id and its own session
   * id, and each index holds exactly the sessions of the other.
   */
  ghost predicate Indexed(sessions: map<string, SessionState>, sessionById: map<string, string>, order: seq<string>) {
    && Distinct(order)
    && (forall d :: d in sessions <==> d in order)
    && (forall d :: d in sessions ==>
          sessions[d].deviceId == d && sessions[d].id in sessionById && sessionById[sessions[d].id] == d)
    && (forall i :: i in sessionById ==> sessionById[i] in sessions && sessions[sessionById[i]].id == i)
  }

  /** A device is in runningTasks exactly when its session is running. */
  ghost predicate RunningMatches(sessions: map<string, SessionState>, runningTasks: set<string>) {
    forall d :: d in runningTasks <==> d in sessions && sessions[d].isRunning
  }

  /** Every session id is one of the first `drawn` ids, which are all different. */
  ghost predicate IdsFrom(uuid: nat -> string, drawn: nat, issued: set<string>, sessionById: map<string, string>) {
    && Injective(uuid)
    && issued == (set k | 0 <= k < drawn :: uuid(k))
    && sessionById.Keys <= issued
  }

  /** Adding a session for a new device under a new id keeps the indexes in agreement. */
  lemma IndexedInsert(sessions: map<string, SessionState>, sessionById: map<string, string>, order: seq<string>, s: SessionState)
    requires Indexed(sessions, sessionById, order)
    requires s.deviceId !in sessions && s.id !in sessionById
    ensures Indexed(sessions[s.deviceId := s], sessionById[s.id := s.deviceId], order + [s.deviceId])
  {
    var order' := order + [s.deviceId];
    assert forall d :: d in order' <==> d in order || d == s.deviceId;
  }

  /** Writing a new state for a device's session, under the same id, keeps the indexes in agreement. */
  lemma IndexedPut(sessions: map<string, SessionState>, sessionById: map<string, string>, order: seq<string>, s: SessionState)
    requires Indexed(sessions, sessionById, order)
    requires s.deviceId in sessions && sessions[s.deviceId].id == s.id
    ensures Indexed(sessions[s.deviceId := s], sessionById, order)
  {
  }

  /** Removing a device's session from both indexes and the order keeps them in agreement. */
  lemma IndexedRemove(sessions: map<string, SessionState>, sessionById: map<string, string>, order: seq<string>, d: string)
    requires Indexed(sessions, sessionById, order) && d in sessions
    ensures Indexed(sessions - {d}, sessionById - {sessions[d].id}, Without(order, {d}))
  {
  }

  /** The next id, uuid(drawn), was never produced, and drawing it extends the produced ids. */
  lemma IdsDraw(uuid: nat -> string, drawn: nat, issued: set<string>, sessionById: map<string, string>, s: SessionState)
    requires IdsFrom(uuid, drawn, issued, sessionById) && s.id == uuid(drawn)
    ensures s.id !in issued && s.id !in sessionById
    ensures IdsFrom(uuid, drawn + 1, issued + {s.id}, sessionById[s.id := s.deviceId])
  {
    var id := s.id;
    assert (set k | 0 <= k < drawn + 1 :: uuid(k)) == issued + {id} by {
      forall x | x in issued + {id}
        ensures x in (set k | 0 <= k < drawn + 1 :: uuid(k))
      {
        if x != id {
          var k :| 0 <= k < drawn && uuid(k) == x;
          assert 0 <= k < drawn + 1;
        } else {
          assert uuid(drawn) == x;
        }
      }
    }
  }

  /**
   * The manager's invariant on its fields: the indexes agree, runningTasks
   * lists exactly the running sessions' devices, and the ids come from the
   * generator.
   */
  ghost predicate ValidState(
    sessions: map<string, SessionState>, sessionById: map<string, string>, order: seq<string>,
    runningTasks: set<string>, uuid: nat -> string, drawn: nat, issued: set<string>)
  {
    && Indexed(sessions, sessionById, order)
    && RunningMatches(sessions, runningTasks)
    && IdsFrom(uuid, drawn, issued, sessionById)
  }

  /** Indexing a new, idle session under the next id keeps the invariant. */
  lemma ValidInsert(
    sessions: map<string, SessionState>, sessionById: map<string, string>, order: seq<string>,
    runningTasks: set<string>, uuid: nat -> string, drawn: nat, issued: set<string>, s: SessionState)
    requires ValidState(sessions, sessionById, order, runningTasks, uuid, drawn, issued)
    requires s.id == uuid(drawn) && s.deviceId !in sessions && !s.isRunning
    ensures s.id !in sessionById
    ensures ValidState(sessions[s.deviceId := s], sessionById[s.id := s.deviceId], order + [s.deviceId],
      runningTasks, uuid, drawn + 1, issued + {s.id})
  {
    IdsDraw(uuid, drawn, issued, sessionById, s);
    IndexedInsert(sessions, sessionById, order, s);
  }

  /**
   * Writing a device's session anew under the same id, with runningTasks
   * following its running flag, keeps the invariant.
   */
  lemma ValidPut(
    sessions: map<string, SessionState>, sessionById: map<string, string>, order: seq<string>,
    runningTasks: set<string>, uuid: nat -> string, drawn: nat, issued: set<string>, s: SessionState)
    requires ValidState(sessions, sessionById, order, runningTasks, uuid, drawn, issued)
    requires s.deviceId in sessions && sessions[s.deviceId].id == s.id
    ensures ValidState(sessions[s.deviceId := s], sessionById, order,
      if s.isRunning then runningTasks + {s.deviceId} else runningTasks - {s.deviceId}, uuid, drawn, issued)
  {
    IndexedPut(sessions, sessionById, order, s);
  }

  /** Removing a device's session from every index keeps the invariant. */
  lemma ValidRemove(
    sessions: map<string, SessionState>, sessionById: map<string, string>, order: seq<string>,
    runningTasks: set<string>, uuid: nat -> string, drawn: nat, issued: set<string>, d: string)
    requires ValidState(sessions, sessionById, order, runningTasks, uuid, drawn, issued) && d in sessions
    ensures ValidState(sessions - {d}, sessionById - {sessions[d].id}, Without(order, {d}),
      runningTasks - {d}, uuid, drawn, issued)
  {
    IndexedRemove(sessions, sessionById, order, d);
  }

  /** Removing keys from a map one more at a time. */
  lemma RemoveMore(m: map<string, SessionState>, gone: set<string>, d: string)
    ensures (m - gone) - {d} == m - (gone + {d})
  {
  }

  /** One entry of getActiveSessions. */
  datatype Summary = Summary(id: string, deviceId: string, isRunning: bool, currentTask: Option<string>, createdAt: int, lastActiveAt: int)

  function SummaryOf(s: SessionState): Summary {
    Summary(s.id, s.deviceId, s.isRunning, s.currentTask, s.createdAt, s.lastActiveAt)
  }

  /** The summaries of the sessions of `keys`, in order. */
  function Summaries(sessions: map<string, SessionState>, keys: seq<string>): (r: seq<Summary>)
    requires forall d :: d in keys ==> d in sessions
    ensures |r| == |keys| && forall i :: 0 <= i < |r| ==> r[i] == SummaryOf(sessions[keys[i]])
  {
    seq(|keys|, i requires 0 <= i < |keys| => SummaryOf(sessions[keys[i]]))
  }

  /** The devices among `keys` whose session is running, in order. */
  function RunningAmong(sessions: map<string, SessionState>, keys: seq<string>): (r: seq<string>)
    requires forall d :: d in keys ==> d in sessions
    ensures forall d :: d in r <==> d in keys && sessions[d].isRunning
  {
    if keys == [] then []
    else
      var last := keys[|keys| - 1];
      RunningAmong(sessions, keys[..|keys| - 1]) + (if sessions[last].isRunning then [last] else [])
  }

  /** One more key extends RunningAmong by that key when its session is running. */
  lemma RunningAmongSnoc(sessions: map<string, SessionState>, keys: seq<string>, i: int)
    requires forall d :: d in keys ==> d in sessions
    requires 0 <= i < |keys|
    ensures RunningAmong(sessions, keys[..i + 1]) ==
      RunningAmong(sessions, keys[..i]) + (if sessions[keys[i]].isRunning then [keys[i]] else [])
  {
    assert keys[..i + 1][..i] == keys[..i];
  }

  /** The devices among `keys` whose session is idle at `now`, in order. */
  function IdleAmong(sessions: map<string, SessionState>, keys: seq<string>, now: int, timeout: Value): (r: seq<string>)
    requires forall d :: d in keys ==> d in sessions
    ensures forall d :: d in r <==> d in keys && IsIdle(sessions[d], now, timeout)
  {
    if keys == [] then []
    else
      var last := keys[|keys| - 1];
      IdleAmong(sessions, keys[..|keys| - 1], now, timeout) + (if IsIdle(sessions[last], now, timeout) then [last] else [])
  }

  /**
   * The session manager. A session object is shared between the manager's
   * two Maps and its callers; here the manager holds each session's state
   * under both keys, and every change to a session is written under both.
   */
  class SessionManager {
    /** Device id to session, with the device ids in the Map's insertion order. */
    var sessions: map<string, SessionState>
    var order: seq<string>
    /** Session id to session. */
    var sessionById: map<string, string>
    /** The devices whose session is running a task. */
    var runningTasks: set<string>
    var idleTimeout: Value
    /** Whether the periodic idle check is scheduled. */
    var idleCheckActive: bool
    /** The abort requests sent to the agents: device id and reason. */
    var aborts: seq<(string, string)>
    /** randomUUID: the id drawn after `k` draws is uuid(k). */
    const uuid: nat -> string
    /** How many ids were drawn. */
    var drawn: nat
    ghost var issued: set<string>

    /**
     * The two indexes hold the same sessions, each under its own device id
     * and its own session id; the insertion order lists each device once;
     * a device is in runningTasks exactly when its session is running; and
     * every session id is one randomUUID produced.
     */
    ghost predicate Valid()
      reads this
    {
      ValidState(sessions, sessionById, order, runningTasks, uuid, drawn, issued)
    }

    /** A session is its device's current session. */
    predicate Current(session: SessionState)
      reads this
    {
      session.deviceId in sessions && sessions[session.deviceId].id == session.id
    }

    /**
     * new SessionManager(options): idleTimeout is options.idleTimeout, or
     * the default when that is falsy; no sessions; the idle check starts.
     */
    constructor (idleTimeout: Value, uuid: nat -> string)
      requires Injective(uuid)
      ensures Valid()
      ensures sessions == map[] && sessionById == map[] && order == [] && runningTasks == {}
      ensures this.idleTimeout == (if Truthy(idleTimeout) then idleTimeout else Num(DefaultIdleTimeout))
      ensures idleCheckActive && aborts == [] && this.uuid == uuid && drawn == 0
    {
      sessions := map[];
      order := [];
      sessionById := map[];
      runningTasks := {};
      this.idleTimeout := if Truthy(idleTimeout) then idleTimeout else Num(DefaultIdleTimeout);
      idleCheckActive := true;
      aborts := [];
      this.uuid := uuid;
      drawn := 0;
      issued := {};
    }

    /**
     * Write a session's new state under its device and its id, with its
     * device in runningTasks exactly when it is running.
     */
    method Put(s: SessionState)
      requires Valid() && Current(s)
      modifies this`sessions, this`runningTasks
      ensures Valid()
      ensures (sessions, runningTasks) == (old(sessions)[s.deviceId := s],
        if s.isRunning then old(runningTasks) + {s.deviceId} else old(runningTasks) - {s.deviceId})
    {
      ValidPut(sessions, sessionById, order, runningTasks, uuid, drawn, issued, s);
      sessions, runningTasks := sessions[s.deviceId := s],
        if s.isRunning then runningTasks + {s.deviceId} else runningTasks - {s.deviceId};
    }

    /**
     * _createNewSession: a fresh session under the next random id, created
     * now and not running, indexed under its device (last in the Map's
     * order) and under its id, which no session had before.
     */
    method CreateNewSession(deviceId: string, now: int) returns (s: SessionState)
      requires Valid() && deviceId !in sessions
      modifies this`sessions, this`sessionById, this`order, this`drawn, this`issued
      ensures Valid()
      ensures s == NewSession(uuid(old(drawn)), deviceId, now) && s.id !in old(sessionById)
      ensures (sessions, sessionById, order, drawn) ==
        (old(sessions)[deviceId := s], old(sessionById)[s.id := deviceId], old(order) + [deviceId], old(drawn) + 1)
    {
      s := NewSession(uuid(drawn), deviceId, now);
      ValidInsert(sessions, sessionById, order, runningTasks, uuid, drawn, issued, s);
      sessions, sessionById, order, drawn, issued :=
        sessions[deviceId := s], sessionById[s.id := deviceId], order + [deviceId], drawn + 1, issued + {s.id};
    }

    /**
     * getOrCreateSession: an existing session of the device is reused (only
     * its lastActiveAt moves to now) and nothing is created; otherwise a new
     * one is.
     */
    method GetOrCreateSession(deviceId: string, now: int) returns (s: SessionState)
      requires Valid()
      modifies this`sessions, this`sessionById, this`order, this`drawn, this`issued, this`runningTasks
      ensures Valid() && runningTasks == old(runningTasks)
      ensures deviceId in sessions && sessions[deviceId] == s && s.lastActiveAt == now
      ensures old(deviceId in sessions) ==>
        && s == old(sessions[deviceId]).(lastActiveAt := now)
        && (sessions, sessionById, order, drawn) == (old(sessions)[deviceId := s], old(sessionById), old(order), old(drawn))
      ensures !old(deviceId in sessions) ==>
        && s == NewSession(uuid(old(drawn)), deviceId, now) && s.id !in old(sessionById)
        && (sessions, sessionById, order, drawn) ==
          (old(sessions)[deviceId := s], old(sessionById)[s.id := deviceId], old(order) + [deviceId], old(drawn) + 1)
    {
      if deviceId in sessions {
        s := sessions[deviceId].(lastActiveAt := now);
        Put(s);
        assert runningTasks == old(runningTasks);
        return;
      }
      s := CreateNewSession(deviceId, now);
    }

    /**
     * _updateSessionState: set the session's task and running flag, touch
     * it, and add its device to runningTasks when running (remove it
     * otherwise).
     */
    method UpdateSessionState(session: SessionState, task: Option<string>, isRunning: bool, now: int) returns (s: SessionState)
      requires Valid() && Current(session)
      modifies this`sessions, this`runningTasks
      ensures Valid()
      ensures s == old(sessions[session.deviceId]).(currentTask := task, isRunning := isRunning, lastActiveAt := now)
      ensures (sessions, runningTasks) == (old(sessions)[s.deviceId := s],
        if isRunning then old(runningTasks) + {s.deviceId} else old(runningTasks) - {s.deviceId})
    {
      s := sessions[session.deviceId].(currentTask := task, isRunning := isRunning, lastActiveAt := now);
      Put(s);
    }

    /**
     * The synchronous part of executeTask: get or create the device's
     * session and mark it running the task (the agent's run is not part of
     * this model).
     */
    method ExecuteTask(deviceId: string, task: string, now: int) returns (s: SessionState)
      requires Valid()
      modifies this`sessions, this`sessionById, this`order, this`drawn, this`issued, this`runningTasks
      ensures Valid()
      ensures deviceId in sessions && sessions[deviceId] == s
      ensures s.isRunning && s.currentTask == Some(task) && s.lastActiveAt == now
      ensures runningTasks == old(runningTasks) + {deviceId}
      ensures sessions == old(sessions)[deviceId := s]
      ensures old(deviceId in sessions) ==>
        && s == old(sessions[deviceId]).(currentTask := Some(task), isRunning := true, lastActiveAt := now)
        && (sessionById, order, drawn) == (old(sessionById), old(order), old(drawn))
      ensures !old(deviceId in sessions) ==>
        && s == NewSession(uuid(old(drawn)), deviceId, now).(currentTask := Some(task), isRunning := true)
        && s.id !in old(sessionById)
        && (sessionById, order, drawn) == (old(sessionById)[s.id := deviceId], old(order) + [deviceId], old(drawn) + 1)
    {
      ghost var before := sessions;
      s := GetOrCreateSession(deviceId, now);
      ghost var touched := sessions;
      s := UpdateSessionState(s, Some(task), true, now);
      UpdateTwice(before, deviceId, touched[deviceId], s);
    }

    /** stopTask: ask the device's agent to abort; nothing happens without a session. */
    method StopTask(deviceId: string, reason: string)
      modifies this`aborts
      ensures aborts == if deviceId in sessions then old(aborts) + [(deviceId, reason)] else old(aborts)
    {
      if deviceId !in sessions {
        return;
      }
      aborts := aborts + [(deviceId, reason)];
    }

    /** _cleanupSession: remove the session from all three indexes. */
    method CleanupSession(session: SessionState)
      requires Valid() && Current(session)
      modifies this`sessions, this`sessionById, this`runningTasks, this`order
      ensures Valid()
      ensures (sessions, sessionById, runningTasks, order) == (old(sessions) - {session.deviceId},
        old(sessionById) - {session.id}, old(runningTasks) - {session.deviceId}, Without(old(order), {session.deviceId}))
    {
      var d := session.deviceId;
      ValidRemove(sessions, sessionById, order, runningTasks, uuid, drawn, issued, d);
      sessions, sessionById, runningTasks, order := sessions - {d}, sessionById - {session.id}, runningTasks - {d}, Without(order, {d});
    }

    /**
     * destroySession: stop the device's task if it is running, then remove
     * the session from every index; no session, no change.
     */
    method DestroySession(deviceId: string)
      requires Valid()
      modifies this`sessions, this`sessionById, this`runningTasks, this`order, this`aborts
      ensures Valid()
      ensures (sessions, runningTasks, order) == (old(sessions) - {deviceId}, old(runningTasks) - {deviceId}, Without(old(order), {deviceId}))
      ensures aborts == if deviceId in old(runningTasks) then old(aborts) + [(deviceId, DestroyReason)] else old(aborts)
    {
      if deviceId !in sessions {
        WithoutAbsent(order, {deviceId});
        assert sessions - {deviceId} == sessions && runningTasks - {deviceId} == runningTasks;
        return;
      }
      var session := sessions[deviceId];
      assert session == old(sessions)[deviceId] && (session.isRunning <==> deviceId in runningTasks);
      if session.isRunning {
        StopTask(deviceId, DestroyReason);
      }
      CleanupSession(session);
    }

    /** Ask the agent of every running session to abort, in the Map's order. */
    method StopRunning(reason: string)
      requires forall d :: d in order ==> d in sessions
      modifies this`aborts
      ensures aborts == old(aborts) + Tagged(RunningAmong(sessions, order), reason)
    {
      var keys, m := order, sessions;
      var i := 0;
      while i < |keys|
        invariant 0 <= i <= |keys|
        invariant aborts == old(aborts) + Tagged(RunningAmong(m, keys[..i]), reason)
      {
        var d := keys[i];
        RunningAmongSnoc(m, keys, i);
        TaggedSnoc(RunningAmong(m, keys[..i]), if m[d].isRunning then [d] else [], reason);
        if m[d].isRunning {
          aborts := aborts + [(d, reason)];
        }
        i := i + 1;
      }
      assert keys[..i] == keys;
    }

    /**
     * destroyAll: stop every running task in the Map's order, clear the
     * three indexes and stop the idle check.
     */
    method DestroyAll()
      requires Valid()
      modifies this`sessions, this`sessionById, this`runningTasks, this`order, this`aborts, this`idleCheckActive
      ensures Valid()
      ensures sessions == map[] && sessionById == map[] && runningTasks == {} && order == []
      ensures !idleCheckActive
      ensures aborts == old(aborts) + Tagged(RunningAmong(old(sessions), old(order)), DestroyAllReason)
    {
      StopRunning(DestroyAllReason);
      sessions, sessionById, runningTasks, order, idleCheckActive := map[], map[], {}, [], false;
    }

    /** getSessionById: the session with that id, or null; it is its device's current session. */
    function GetSessionById(id: string): (r: Option<SessionState>)
      requires Valid()
      reads this
      ensures r.Some? <==> id in sessionById
      ensures r.Some? ==> r.value.id == id && r.value.deviceId in sessions && sessions[r.value.deviceId] == r.value
    {
      if id in sessionById then Some(sessions[sessionById[id]]) else None
    }

    /** getSessionByDevice: the device's session, or null; looking up its id finds the same session. */
    function GetSessionByDevice(deviceId: string): (r: Option<SessionState>)
      requires Valid()
      reads this
      ensures r.Some? <==> deviceId in sessions
      ensures r.Some? ==> r.value.deviceId == deviceId && GetSessionById(r.value.id) == r
    {
      if deviceId in sessions then Some(sessions[deviceId]) else None
    }

    /**
     * getActiveSessions: one summary per session in the Map's order; every
     * device appears once, and a summary says running exactly when the
     * device is in runningTasks.
     */
    function ActiveSessions(): (r: seq<Summary>)
      requires Valid()
      reads this
      ensures |r| == |order|
      ensures forall i :: 0 <= i < |r| ==> r[i].deviceId in sessions && r[i] == SummaryOf(sessions[r[i].deviceId])
      ensures forall i :: 0 <= i < |r| ==> (r[i].isRunning <==> r[i].deviceId in runningTasks)
      ensures forall i, j :: 0 <= i < j < |r| ==> r[i].deviceId != r[j].deviceId
      ensures forall d :: d in sessions ==> exists i :: 0 <= i < |r| && r[i].deviceId == d
    {
      Summaries(sessions, order)
    }

    /**
     * A session that is no longer indexed (it was destroyed) while its
     * device has a new session that is running.
     */
    predicate ShadowsRunning(session: SessionState)
      reads this
    {
      session.id !in sessionById && session.deviceId in sessions && sessions[session.deviceId].isRunning
    }

    /**
     * clearRunningState: reset the session's step counter, running flag and
     * task, touch it, and remove its device from runningTasks. The index
     * invariant survives exactly when the session is not a destroyed one
     * whose device now has another, running session.
     */
    method ClearRunningState(session: SessionState, now: int)
      requires Valid()
      requires session.id in sessionById ==> sessionById[session.id] == session.deviceId
      modifies this`sessions, this`runningTasks
      ensures runningTasks == old(runningTasks) - {session.deviceId}
      ensures sessions == if session.id in sessionById
        then old(sessions)[session.deviceId := Cleared(old(sessions)[session.deviceId], now)]
        else old(sessions)
      ensures Valid() <==> !ShadowsRunning(session)
    {
      if session.id in sessionById {
        var s := Cleared(sessions[session.deviceId], now);
        Put(s);
      } else {
        runningTasks := runningTasks - {session.deviceId};
        var d := session.deviceId;
        if ShadowsRunning(session) {
          assert d !in runningTasks && d in sessions && sessions[d].isRunning;
        } else {
          assert d !in old(runningTasks);
        }
      }
    }

    /** The first loop of _checkIdleSessions: the idle devices, in the Map's order. */
    method CollectIdle(now: int) returns (toDestroy: seq<string>)
      requires forall d :: d in order ==> d in sessions
      ensures toDestroy == IdleAmong(sessions, order, now, idleTimeout)
    {
      toDestroy := [];
      var i := 0;
      while i < |order|
        invariant 0 <= i <= |order|
        invariant toDestroy == IdleAmong(sessions, order[..i], now, idleTimeout)
      {
        assert order[..i + 1][..i] == order[..i];
        if IsIdle(sessions[order[i]], now, idleTimeout) {
          toDestroy := toDestroy + [order[i]];
        }
        i := i + 1;
      }
      assert order[..i] == order;
    }

    /** The second loop of _checkIdleSessions: destroy each listed device, none of them running. */
    method DestroyEach(toDestroy: seq<string>)
      requires Valid()
      requires forall d :: d in toDestroy ==> d !in runningTasks
      modifies this`sessions, this`sessionById, this`runningTasks, this`order, this`aborts
      ensures Valid()
      ensures sessions == old(sessions) - (set d | d in toDestroy)
      ensures order == Without(old(order), set d | d in toDestroy)
      ensures runningTasks == old(runningTasks) && aborts == old(aborts)
    {
      ghost var gone: set<string> := {};
      assert sessions == old(sessions) - gone;
      WithoutAbsent(order, gone);
      var j := 0;
      while j < |toDestroy|
        invariant 0 <= j <= |toDestroy|
        invariant Valid()
        invariant forall x :: x in gone <==> x in toDestroy[..j]
        invariant sessions == old(sessions) - gone && order == Without(old(order), gone)
        invariant runningTasks == old(runningTasks) && aborts == old(aborts)
      {
        var d := toDestroy[j];
        assert toDestroy[..j + 1] == toDestroy[..j] + [d];
        DestroySession(d);
        RemoveMore(old(sessions), gone, d);
        WithoutWithout(old(order), gone, {d});
        gone := gone + {d};
        j := j + 1;
      }
      assert toDestroy[..j] == toDestroy;
      assert gone == set d | d in toDestroy;
    }

    /**
     * _checkIdleSessions: destroy exactly the sessions that are not running
     * and have been idle longer than idleTimeout; the others stay as they
     * were, and no task is stopped.
     */
    method CheckIdleSessions(now: int)
      requires Valid()
      modifies this`sessions, this`sessionById, this`runningTasks, this`order, this`aborts
      ensures Valid()
      ensures forall d :: d in sessions <==> d in old(sessions) && !IsIdle(old(sessions)[d], now, idleTimeout)
      ensures forall d :: d in sessions ==> sessions[d] == old(sessions)[d]
      ensures order == Without(old(order), set d | d in old(sessions) && IsIdle(old(sessions)[d], now, idleTimeout))
      ensures runningTasks == old(runningTasks) && aborts == old(aborts)
    {
      var toDestroy := CollectIdle(now);
      assert (set d | d in toDestroy) == set d | d in old(sessions) && IsIdle(old(sessions)[d], now, idleTimeout);
      DestroyEach(toDestroy);
    }

    /** setIdleTimeout: anything but a number that is not `<= 0` is ignored. */
    method SetIdleTimeout(timeout: Value)
      modifies this`idleTimeout
      ensures idleTimeout == if AcceptedTimeout(timeout) then timeout else old(idleTimeout)
    {
      if TypeOf(timeout) != "number" || AtMostZero(timeout) {
        return;
      }
      idleTimeout := timeout;
    }
  }

  /** The abort requests for `ds`, all with the same reason. */
  function Tagged(ds: seq<string>, reason: string): (r: seq<(string, string)>)
    ensures |r| == |ds| && forall i :: 0 <= i < |ds| ==> r[i] == (ds[i], reason)
  {
    seq(|ds|, i requires 0 <= i < |ds| => (ds[i], reason))
  }

  lemma TaggedSnoc(ds: seq<string>, e: seq<string>, reason: string)
    ensures Tagged(ds + e, reason) == Tagged(ds, reason) + Tagged(e, reason)
  {
  }

  /**
   * _getConcurrencyLimit: `customLimit ?? stored ?? 5`; the result is never
   * null or undefined.
   */
  function ConcurrencyLimit(customLimit: Value, stored: Value): (r: Value)
    ensures !r.Undefined? && !r.Null?
    ensures !customLimit.Undefined? && !customLimit.Null? ==> r == customLimit
    ensures (customLimit.Undefined? || customLimit.Null?) && !stored.Undefined? && !stored.Null? ==> r == stored
  {
    if !customLimit.Undefined? && !customLimit.Null? then customLimit
    else if !stored.Undefined? && !stored.Null? then stored
    else Num(DefaultConcurrency)
  }

  datatype ExecErrorCode = ApiNotPurchased | NetworkError | UnknownError

  /** The ERROR_CODES strings. */
  function ExecErrorCodeText(c: ExecErrorCode): string {
    match c
    case ApiNotPurchased => "API_NOT_PURCHASED"
    case NetworkError => "NETWORK_ERROR"
    case UnknownError => "UNKNOWN_ERROR"
  }

  /**
   * A thrown value as error normalisation reads it: err?.status,
   * err?.error?.message, err?.code, err?.name and err?.message (all
   * undefined when err itself is null or undefined).
   */
  datatype Thrown = Thrown(status: Value, errorMessage: Value, code: Value, name: Value, message: Value)

  /** A normalised error: code, message, whether a retry may help, and the raw error. */
  datatype ExecError = ExecError(code: ExecErrorCode, message: Value, retryable: bool, raw: Thrown)

  /**
   * _normalizeExecuteError: status 400 with a message is API_NOT_PURCHASED
   * carrying that message; otherwise ETIMEDOUT or an AbortError is a
   * retryable NETWORK_ERROR; anything else is UNKNOWN_ERROR with the
   * error's own message or a default. Only network errors are retryable,
   * and every normalised error has a non-empty message.
   */
  function NormalizeExecuteError(err: Thrown): (r: ExecError)
    ensures r.raw == err
    ensures r.code == ApiNotPurchased <==> StrictEquals(err.status, Num(400)) && Truthy(err.errorMessage)
    ensures r.code == ApiNotPurchased ==> r.message == err.errorMessage
    ensures r.code == NetworkError <==>
      !r.code.ApiNotPurchased? && (StrictEquals(err.code, Str("ETIMEDOUT")) || StrictEquals(err.name, Str("AbortError")))
    ensures r.code == NetworkError ==> r.message == Str(NetworkMessage)
    ensures r.code == UnknownError && Truthy(err.message) ==> r.message == err.message
    ensures r.retryable <==> r.code == NetworkError
    ensures Truthy(r.message)
  {
    if StrictEquals(err.status, Num(400)) && Truthy(err.errorMessage) then
      ExecError(ApiNotPurchased, err.errorMessage, false, err)
    else if StrictEquals(err.code, Str("ETIMEDOUT")) || StrictEquals(err.name, Str("AbortError")) then
      ExecError(NetworkError, Str(NetworkMessage), true, err)
    else
      ExecError(UnknownError, if Truthy(err.message) then err.message else Str(UnknownMessage), false, err)
  }

  /**
   * _getCleanSession's record: the session id (twice, as id and sessionId)
   * and the device id; its task field reads session.task, which sessions
   * never have, so it is always undefined and not kept.
   */
  datatype CleanSession = CleanSession(id: string, deviceId: string)

  /** A settled device task: fulfilled with its session, or rejected with the normalised error. */
  datatype TaskResult =
    | Fulfilled(session: CleanSession)
    | Rejected(failedSession: Option<CleanSession>, error: ExecError)

  /** A failed result: the session's fields (none when it was never assigned) spread with the error's. */
  datatype Failure = Failure(session: Option<CleanSession>, error: ExecError)

  /** The sessions of the fulfilled results, in order. */
  function Successes(results: seq<TaskResult>): seq<CleanSession> {
    if results == [] then []
    else
      var last := results[|results| - 1];
      Successes(results[..|results| - 1]) + (if last.Fulfilled? then [last.session] else [])
  }

  /** The rejected results as failures, in order. */
  function Failures(results: seq<TaskResult>): seq<Failure> {
    if results == [] then []
    else
      var last := results[|results| - 1];
      Failures(results[..|results| - 1]) + (if last.Rejected? then [Failure(last.failedSession, last.error)] else [])
  }

  /** _categorizeResults: split the results into the successes and the failures. */
  method CategorizeResults(results: seq<TaskResult>) returns (successes: seq<CleanSession>, failures: seq<Failure>)
    ensures successes == Successes(results) && failures == Failures(results)
  {
    successes, failures := [], [];
    var i := 0;
    while i < |results|
      invariant 0 <= i <= |results|
      invariant successes == Successes(results[..i]) && failures == Failures(results[..i])
    {
      assert results[..i + 1][..i] == results[..i];
      var result := results[i];
      if result.Fulfilled? {
        successes := successes + [result.session];
      } else {
        failures := failures + [Failure(result.failedSession, result.error)];
      }
      i := i + 1;
    }
    assert results[..i] == results;
  }

  /**
   * Categorisation is a partition: every result lands in exactly one of
   * the two lists, a fulfilled one among the successes and a rejected one
   * among the failures.
   */
  lemma {:induction false} CategorizePartition(results: seq<TaskResult>)
    ensures |Successes(results)| + |Failures(results)| == |results|
    ensures forall i :: 0 <= i < |results| && results[i].Fulfilled? ==> results[i].session in Successes(results)
    ensures forall i :: 0 <= i < |results| && results[i].Rejected? ==>
      Failure(results[i].failedSession, results[i].error) in Failures(results)
    ensures forall s :: s in Successes(results) ==> Fulfilled(s) in results
    ensures forall f :: f in Failures(results) ==> Rejected(f.session, f.error) in results
  {
    if results != [] {
      var init := results[..|results| - 1];
      CategorizePartition(init);
      assert results == init + [results[|results| - 1]];
      forall i | 0 <= i < |init|
        ensures results[i] == init[i]
      {
      }
    }
  }
}
