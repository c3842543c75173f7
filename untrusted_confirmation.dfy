/**
  `markUntrustedConfirmationPending` (`src/agents/untrusted-confirmation.ts`):
  a best-effort, idempotent write of "a confirmation is owed" into the session
  store, short-circuited by an in-process pending marker.

  The session store, the session-to-agent resolver and the store-path resolver
  are collaborators outside this model: the resolvers are function parameters
  that may fail, the store is a map from (store path, session key) to entry
  whose update either completes with a result whose truthiness the store
  chooses or throws. The clock is the parameter `now`.
*/
module UntrustedConfirmation {
  import opened Wrappers

  /** The two fields of a session-store entry this operation reads and writes;
      an entry without `untrustedMemoryPending` reads as `false` here. */
  datatype SessionEntry = SessionEntry(untrustedMemoryPending: bool, untrustedMemoryPendingAt: Option<int>)

  /** The patch the update callback returns. */
  datatype Patch = Patch(untrustedMemoryPending: bool, untrustedMemoryPendingAt: int)

  /** The opaque configuration; only its `session.store` setting is passed on. */
  datatype Config = Config(sessionStore: Option<string>)

  /** `MarkUntrustedConfirmationPendingParams` without the marker, which is the
      separate object `PendingMarker`. */
  datatype Params = Params(config: Option<Config>, sessionKey: Option<string>, agentId: Option<string>)

  /** A store entry is found by the store's path and the session key. */
  datatype StoreKey = StoreKey(storePath: string, sessionKey: string)

  /** How the store's `updateSessionStoreEntry` call ends: it throws, or it
      resolves to a value that is truthy or not. */
  datatype StoreResponse = Threw(error: string) | Resolved(truthy: bool)

  /** How the call as a whole ends: it resolves, or a collaborator outside the
      `try` threw and the returned promise rejects. */
  datatype Completion = Completed | Rejected(error: string)

  /** What the call can observe and change: the store's entries, the caller's
      marker (`None` when no marker was passed) and the keys of every store
      update it attempted, in order. */
  datatype World = World(entries: map<StoreKey, SessionEntry>, marker: Option<bool>, updates: seq<StoreKey>)

  /** The inline `update` callback: no change for an entry that is already
      pending, otherwise a patch that makes it pending as of `now`. */
  function PendingPatch(entry: SessionEntry, now: int): (p: Option<Patch>)
    ensures p.None? <==> entry.untrustedMemoryPending
    ensures p.Some? ==> p.value.untrustedMemoryPending && p.value.untrustedMemoryPendingAt == now
  {
    if entry.untrustedMemoryPending then None
    else Some(Patch(true, now))
  }

  /** The store's merge of a patch into an entry. */
  function Merge(entry: SessionEntry, patch: Patch): SessionEntry {
    SessionEntry(patch.untrustedMemoryPending, Some(patch.untrustedMemoryPendingAt))
  }

  /** The entries after a completed store update with the callback: the
      callback runs on the entry under `key`, if there is one, and a non-null
      patch is merged into it. Nothing else changes. */
  function UpdatedEntries(entries: map<StoreKey, SessionEntry>, key: StoreKey, now: int): map<StoreKey, SessionEntry> {
    if key !in entries then entries
    else
      match PendingPatch(entries[key], now)
      case None => entries
      case Some(patch) => entries[key := Merge(entries[key], patch)]
  }

  /** After a completed update the entry is pending; it keeps its timestamp if
      it was already pending, and otherwise is stamped `now`; every other key
      keeps its entry. */
  lemma UpdateMakesPending(entries: map<StoreKey, SessionEntry>, key: StoreKey, now: int)
    requires key in entries
    ensures key in UpdatedEntries(entries, key, now)
    ensures UpdatedEntries(entries, key, now)[key].untrustedMemoryPending
    ensures entries[key].untrustedMemoryPending ==> UpdatedEntries(entries, key, now)[key] == entries[key]
    ensures !entries[key].untrustedMemoryPending ==> UpdatedEntries(entries, key, now)[key].untrustedMemoryPendingAt == Some(now)
    ensures UpdatedEntries(entries, key, now).Keys == entries.Keys
    ensures forall k | k in entries && k != key :: UpdatedEntries(entries, key, now)[k] == entries[k]
  {
  }

  /** The store key the call would update, or the error of the resolver that
      threw. A supplied agent id, even an empty one, is used as is; only a
      missing one is resolved from the session key. */
  function TargetKey(
    config: Config, sessionKey: string, agentId: Option<string>,
    resolveSessionAgentId: (string, Config) -> Result<string>,
    resolveStorePath: (Option<string>, string) -> Result<string>): Result<StoreKey>
  {
    var agent := if agentId.Some? then Ok(agentId.value) else resolveSessionAgentId(sessionKey, config);
    if agent.Err? then Err(agent.error)
    else
      var path := resolveStorePath(config.sessionStore, agent.value);
      if path.Err? then Err(path.error)
      else Ok(StoreKey(path.value, sessionKey))
  }

  /** The call gets past its guards: a configuration and a non-empty session
      key are given, and the caller's marker is not already set. */
  predicate Proceeds(w: World, p: Params) {
    p.config.Some? && Truthy(p.sessionKey) && w.marker != Some(true)
  }

  /** The effect of one call of `markUntrustedConfirmationPending`. */
  function Mark(
    w: World, p: Params, now: int,
    resolveSessionAgentId: (string, Config) -> Result<string>,
    resolveStorePath: (Option<string>, string) -> Result<string>,
    response: StoreResponse): (r: (Completion, World))
    // the marker is never cleared and never added or removed
    ensures r.1.marker.Some? == w.marker.Some?
    ensures w.marker == Some(true) ==> r.1.marker == Some(true)
    // it is raised only by a store update that resolved truthy
    ensures r.1.marker != w.marker ==> response == Resolved(true) && |r.1.updates| == |w.updates| + 1
    // at most one store update, and only the entry it names can change
    ensures r.1.updates == w.updates || (|r.1.updates| == |w.updates| + 1 && r.1.updates[..|w.updates|] == w.updates)
    ensures forall k | k in w.entries :: k in r.1.entries
    ensures forall k | k in r.1.entries :: k in w.entries
    ensures forall k | k in w.entries && (r.1.updates == w.updates || k != r.1.updates[|w.updates|]) :: r.1.entries[k] == w.entries[k]
    // a rejected call changes nothing
    ensures r.0.Rejected? ==> r.1 == w
    // past the guards, with the target resolved, the one update goes to that
    // target: a store failure does not escape and changes no entry, a
    // resolved update applies the patch callback, and a truthy result raises
    // a lowered marker
    ensures Proceeds(w, p) && TargetKey(p.config.value, p.sessionKey.value, p.agentId,
                                        resolveSessionAgentId, resolveStorePath).Ok? ==>
      var key := TargetKey(p.config.value, p.sessionKey.value, p.agentId,
                           resolveSessionAgentId, resolveStorePath).value;
      && r.0 == Completed
      && r.1.updates == w.updates + [key]
      && (response.Threw? ==> r.1.entries == w.entries && r.1.marker == w.marker)
      && (response.Resolved? ==> r.1.entries == UpdatedEntries(w.entries, key, now))
      && (response == Resolved(true) && w.marker == Some(false) ==> r.1.marker == Some(true))
  {
    if p.config.None? || !Truthy(p.sessionKey) then (Completed, w)
    else if w.marker == Some(true) then (Completed, w)
    else
      match TargetKey(p.config.value, p.sessionKey.value, p.agentId, resolveSessionAgentId, resolveStorePath)
      case Err(e) => (Rejected(e), w)
      case Ok(key) =>
        var updates := w.updates + [key];
        match response
        case Threw(_) => (Completed, w.(updates := updates))
        case Resolved(truthy) =>
          var marker := if truthy && w.marker.Some? then Some(true) else w.marker;
          (Completed, World(UpdatedEntries(w.entries, key, now), marker, updates))
  }

  /** Without a configuration or a session key the call resolves at once and
      touches neither the store nor the marker. */
  lemma NoContextIsNoOp(
    w: World, p: Params, now: int,
    resolveSessionAgentId: (string, Config) -> Result<string>,
    resolveStorePath: (Option<string>, string) -> Result<string>,
    response: StoreResponse)
    requires p.config.None? || p.sessionKey.None? || p.sessionKey == Some("")
    ensures Mark(w, p, now, resolveSessionAgentId, resolveStorePath, response) == (Completed, w)
  {
  }

  /** A marker that is already set short-circuits the call: no store
      interaction at all. */
  lemma MarkerShortCircuits(
    w: World, p: Params, now: int,
    resolveSessionAgentId: (string, Config) -> Result<string>,
    resolveStorePath: (Option<string>, string) -> Result<string>,
    response: StoreResponse)
    requires w.marker == Some(true)
    ensures Mark(w, p, now, resolveSessionAgentId, resolveStorePath, response) == (Completed, w)
  {
  }

  /** A supplied agent id is used as is: the session-to-agent resolver is not
      consulted, and the store path is the one resolved for that id. */
  lemma SuppliedAgentIdUsed(
    w: World, p: Params, now: int,
    resolveA: (string, Config) -> Result<string>,
    resolveB: (string, Config) -> Result<string>,
    resolveStorePath: (Option<string>, string) -> Result<string>,
    response: StoreResponse)
    requires p.config.Some? && Truthy(p.sessionKey) && p.agentId.Some? && w.marker != Some(true)
    ensures Mark(w, p, now, resolveA, resolveStorePath, response) == Mark(w, p, now, resolveB, resolveStorePath, response)
    ensures var path := resolveStorePath(p.config.value.sessionStore, p.agentId.value);
      path.Ok? ==> Mark(w, p, now, resolveA, resolveStorePath, response).1.updates == w.updates + [StoreKey(path.value, p.sessionKey.value)]
  {
  }

  /** An error from resolving the agent or the store path is not caught: the
      call rejects, and nothing was written. */
  lemma ResolutionErrorEscapes(
    w: World, p: Params, now: int,
    resolveSessionAgentId: (string, Config) -> Result<string>,
    resolveStorePath: (Option<string>, string) -> Result<string>,
    response: StoreResponse)
    requires p.config.Some? && Truthy(p.sessionKey) && w.marker != Some(true)
    requires TargetKey(p.config.value, p.sessionKey.value, p.agentId, resolveSessionAgentId, resolveStorePath).Err?
    ensures Mark(w, p, now, resolveSessionAgentId, resolveStorePath, response).0.Rejected?
    ensures Mark(w, p, now, resolveSessionAgentId, resolveStorePath, response).1 == w
  {
  }

  /** A store update that throws is swallowed: the call resolves, the entries
      and the marker are as before. */
  lemma StoreFailureSwallowed(
    w: World, p: Params, now: int,
    resolveSessionAgentId: (string, Config) -> Result<string>,
    resolveStorePath: (Option<string>, string) -> Result<string>,
    error: string)
    requires p.config.None? || !Truthy(p.sessionKey)
      || TargetKey(p.config.value, p.sessionKey.value, p.agentId, resolveSessionAgentId, resolveStorePath).Ok?
    ensures var r := Mark(w, p, now, resolveSessionAgentId, resolveStorePath, Threw(error));
      r.0 == Completed && r.1.entries == w.entries && r.1.marker == w.marker
  {
  }

  /** One call: its parameters, the resolvers it sees, its clock reading and
      its store outcome. */
  datatype Call = Call(
    p: Params, now: int,
    resolveSessionAgentId: (string, Config) -> Result<string>,
    resolveStorePath: (Option<string>, string) -> Result<string>,
    response: StoreResponse)

  /** The world after one call. */
  function MarkOne(w: World, c: Call): World {
    Mark(w, c.p, c.now, c.resolveSessionAgentId, c.resolveStorePath, c.response).1
  }

  /** The world after a sequence of calls against the same store and marker,
      each with its own session, agent id, resolvers, clock and outcome; a
      call that rejects leaves the world as it was, and the next call goes on
      from there. */
  function MarkAll(w: World, calls: seq<Call>): World
    decreases |calls|
  {
    if calls == [] then w else MarkAll(MarkOne(w, calls[0]), calls[1..])
  }

  /** An entry that is already pending is never touched again: no later call,
      for this session or any other, refreshes its timestamp. */
  lemma {:induction false} PendingEntryNeverRestamped(w: World, calls: seq<Call>, key: StoreKey)
    requires key in w.entries && w.entries[key].untrustedMemoryPending
    ensures var after := MarkAll(w, calls);
      key in after.entries && after.entries[key] == w.entries[key]
    decreases |calls|
  {
    if calls != [] {
      var next := MarkOne(w, calls[0]);
      if next.updates != w.updates && key == next.updates[|w.updates|] {
        UpdateMakesPending(w.entries, key, calls[0].now);
      }
      PendingEntryNeverRestamped(next, calls[1..], key);
    }
  }

  /** Once a call has stamped an entry, whatever calls follow, the entry keeps
      that call's timestamp. */
  lemma FirstTimestampKept(w: World, calls: seq<Call>, key: StoreKey)
    requires calls != [] && calls[0].response.Resolved?
    requires Proceeds(w, calls[0].p)
    requires TargetKey(calls[0].p.config.value, calls[0].p.sessionKey.value, calls[0].p.agentId,
                       calls[0].resolveSessionAgentId, calls[0].resolveStorePath) == Ok(key)
    requires key in w.entries && !w.entries[key].untrustedMemoryPending
    ensures var after := MarkAll(w, calls);
      key in after.entries && after.entries[key] == SessionEntry(true, Some(calls[0].now))
  {
    var next := MarkOne(w, calls[0]);
    assert next.entries == UpdatedEntries(w.entries, key, calls[0].now);
    UpdateMakesPending(w.entries, key, calls[0].now);
    PendingEntryNeverRestamped(next, calls[1..], key);
  }

  /** Whatever calls are made, the marker only goes from false to true. */
  lemma {:induction false} MarkerOnlyRises(w: World, calls: seq<Call>)
    ensures var after := MarkAll(w, calls);
      after.marker.Some? == w.marker.Some? && (w.marker == Some(true) ==> after.marker == Some(true))
    decreases |calls|
  {
    if calls != [] {
      MarkerOnlyRises(MarkOne(w, calls[0]), calls[1..]);
    }
  }

  /** The caller's `{ value: boolean }` cell. */
  class PendingMarker {
    var value: bool

    constructor (value: bool)
      ensures this.value == value
    {
      this.value := value;
    }
  }

  /** The session store, seen through `updateSessionStoreEntry` called with the
      inline callback. */
  class SessionStore {
    var entries: map<StoreKey, SessionEntry>
    /** The key of every update call made so far, in order. */
    ghost var updates: seq<StoreKey>

    constructor (entries: map<StoreKey, SessionEntry>)
      ensures this.entries == entries && updates == []
    {
      this.entries := entries;
      updates := [];
    }

    /** `updateSessionStoreEntry({ storePath, sessionKey, update })`: on a
        throw nothing is written; otherwise the callback decides the write. */
    method UpdateEntry(storePath: string, sessionKey: string, now: int, response: StoreResponse)
      returns (r: Result<bool>)
      modifies this
      ensures updates == old(updates) + [StoreKey(storePath, sessionKey)]
      ensures response.Threw? ==> r == Err(response.error) && entries == old(entries)
      ensures response.Resolved? ==>
        r == Ok(response.truthy) && entries == UpdatedEntries(old(entries), StoreKey(storePath, sessionKey), now)
    {
      var key := StoreKey(storePath, sessionKey);
      updates := updates + [key];
      match response
      case Threw(e) =>
        r := Err(e);
      case Resolved(truthy) =>
        if key in entries {
          var patch := PendingPatch(entries[key], now);
          if patch.Some? {
            entries := entries[key := Merge(entries[key], patch.value)];
          }
        }
        r := Ok(truthy);
    }
  }

  /** What `Mark` sees of the store and the marker. */
  ghost function Observe(store: SessionStore, marker: PendingMarker?): World
    reads store, marker
  {
    World(store.entries, if marker == null then None else Some(marker.value), store.updates)
  }

  /** `markUntrustedConfirmationPending(params)` with the caller's marker. */
  method MarkUntrustedConfirmationPending(
    store: SessionStore, params: Params, marker: PendingMarker?, now: int,
    resolveSessionAgentId: (string, Config) -> Result<string>,
    resolveStorePath: (Option<string>, string) -> Result<string>,
    response: StoreResponse)
    returns (c: Completion)
    modifies store, marker
    ensures (c, Observe(store, marker)) ==
      Mark(old(Observe(store, marker)), params, now, resolveSessionAgentId, resolveStorePath, response)
  {
    if params.config.None? || !Truthy(params.sessionKey) {
      return Completed;
    }
    if marker != null && marker.value {
      return Completed;
    }
    var config, sessionKey := params.config.value, params.sessionKey.value;
    var agentId: string;
    if params.agentId.Some? {
      agentId := params.agentId.value;
    } else {
      var resolved := resolveSessionAgentId(sessionKey, config);
      if resolved.Err? {
        return Rejected(resolved.error);
      }
      agentId := resolved.value;
    }
    var storePath := resolveStorePath(config.sessionStore, agentId);
    if storePath.Err? {
      return Rejected(storePath.error);
    }
    var updated := store.UpdateEntry(storePath.value, sessionKey, now, response);
    if updated.Ok? && updated.value && marker != null {
      marker.value := true;
    }
    c := Completed;
  }
}
