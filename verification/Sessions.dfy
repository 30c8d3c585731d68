/**
 The bridge's sessions: a bounded cache, oldest idle entry out first, in front of a durable document.
 */
module Sessions {
  import opened Common
  import opened Turns

  const MAX_IN_MEMORY_SESSIONS := 64

  type SessionId = string

  // ----- the cache -----

  /** turns maps a session with a turn in flight to that turn. */
  datatype Cache = Cache(sessions: map<SessionId, StoredSession>, order: seq<SessionId>, turns: map<SessionId, nat>) {
    /** The position in order of the oldest session without a turn, from i on. */
    function FirstIdle(i: nat): (k: Option<nat>)
      ensures k.Some? ==> i <= k.value < |order| && order[k.value] !in turns
      ensures k.Some? ==> forall j :: i <= j < k.value ==> order[j] in turns
      ensures k.None? ==> forall j :: i <= j < |order| ==> order[j] in turns
      decreases |order| - i
    {
      if i >= |order| then None
      else if order[i] in turns then FirstIdle(i + 1)
      else Some(i)
    }

    function Evict(): Cache {
      if |sessions| <= MAX_IN_MEMORY_SESSIONS then this
      else
        match FirstIdle(0)
        case None => this
        case Some(k) => this.(sessions := sessions - {order[k]}, order := order[..k] + order[k + 1..])
    }

    function Set(id: SessionId, sess: StoredSession): Cache {
      this.(sessions := sessions[id := sess], order := if id in sessions then order else order + [id]).Evict()
    }

    function Register(id: SessionId, turn: nat): Cache {
      if id in turns then this else this.(turns := turns[id := turn])
    }

    function Unregister(id: SessionId, turn: nat): Cache {
      if id in turns && turns[id] == turn then this.(turns := turns - {id}) else this
    }

    /** order lists each cached session once. */
    ghost predicate Agrees() {
      Lists(order, sessions.Keys)
    }
  }

  const EMPTY := Cache(map[], [], map[])

  class SessionCache {
    var sessions: map<SessionId, StoredSession>
    var order: seq<SessionId>
    var turns: map<SessionId, nat>

    constructor ()
      ensures Value() == EMPTY
    {
      sessions, order, turns := map[], [], map[];
    }

    function Value(): Cache
      reads this
    {
      Cache(sessions, order, turns)
    }

    method EvictLocked()
      modifies this`sessions, this`order
      ensures Value() == old(Value()).Evict()
    {
      if |sessions| <= MAX_IN_MEMORY_SESSIONS {
        return;
      }
      for i := 0 to |order|
        invariant Value() == old(Value())
        invariant Value().FirstIdle(0) == Value().FirstIdle(i)
      {
        var id := order[i];
        if id in turns {
          continue;
        }
        sessions := sessions - {id};
        order := order[..i] + order[i + 1..];
        return;
      }
    }

    method SetSession(id: SessionId, sess: StoredSession)
      modifies this`sessions, this`order
      ensures Value() == old(Value()).Set(id, sess)
    {
      if id !in sessions {
        order := order + [id];
      }
      sessions := sessions[id := sess];
      EvictLocked();
    }

    method RegisterTurn(id: SessionId, turn: nat) returns (ok: bool)
      modifies this`turns
      ensures Value() == old(Value()).Register(id, turn) && (ok <==> id !in old(turns))
    {
      if id in turns {
        return false;
      }
      turns := turns[id := turn];
      return true;
    }

    method UnregisterTurn(id: SessionId, turn: nat)
      modifies this`turns
      ensures Value() == old(Value()).Unregister(id, turn)
    {
      if id in turns && turns[id] == turn {
        turns := turns - {id};
      }
    }
  }

  ghost predicate Lists(order: seq<SessionId>, ids: set<SessionId>) {
    && (forall i, j :: 0 <= i < j < |order| ==> order[i] != order[j])
    && forall id :: id in order <==> id in ids
  }

  lemma ListsWithout(order: seq<SessionId>, ids: set<SessionId>, k: nat)
    requires Lists(order, ids) && k < |order|
    ensures Lists(order[..k] + order[k + 1..], ids - {order[k]})
  {
    var left := order[..k] + order[k + 1..];
    assert forall j :: 0 <= j < |left| ==> left[j] == order[if j < k then j else j + 1];
    forall id
      ensures id in left <==> id in ids - {order[k]}
    {
      if id in left {
        var j :| 0 <= j < |left| && left[j] == id;
        assert id == order[if j < k then j else j + 1] && id in order;
      }
    }
  }

  lemma ListsMore(order: seq<SessionId>, ids: set<SessionId>, id: SessionId)
    requires Lists(order, ids)
    ensures Lists(if id in ids then order else order + [id], ids + {id})
  {
    if id in ids {
      assert ids + {id} == ids;
    } else {
      assert forall x :: x in order + [id] <==> x in order || x == id;
    }
  }

  lemma AllBusy(c: Cache)
    requires c.Agrees() && forall j :: 0 <= j < |c.order| ==> c.order[j] in c.turns
    ensures forall id :: id in c.sessions ==> id in c.turns
  {
    forall id | id in c.sessions
      ensures id in c.turns
    {
      assert id in c.order;
    }
  }

  /** Past the bound, the oldest idle session goes and nothing else; when every cached session has a turn, nothing does. */
  lemma EvictsOldestIdle(c: Cache)
    requires c.Agrees() && |c.sessions| > MAX_IN_MEMORY_SESSIONS
    ensures c.Evict().Agrees() && c.Evict().turns == c.turns
    ensures match c.FirstIdle(0)
            case None => c.Evict() == c && forall id :: id in c.sessions ==> id in c.turns
            case Some(k) =>
              && c.order[k] in c.sessions && c.order[k] !in c.turns && (forall j :: 0 <= j < k ==> c.order[j] in c.turns)
              && c.Evict().sessions == c.sessions - {c.order[k]}
              && |c.Evict().sessions| == |c.sessions| - 1
  {
    hide Cache.FirstIdle, Lists;
    var idle := c.FirstIdle(0);
    if idle.Some? {
      OneFewer(c, idle.value);
    } else {
      AllBusy(c);
    }
  }

  lemma OneFewer(c: Cache, k: nat)
    requires c.Agrees() && k < |c.order|
    ensures c.order[k] in c.sessions
    ensures Lists(c.order[..k] + c.order[k + 1..], (c.sessions - {c.order[k]}).Keys)
    ensures |c.sessions - {c.order[k]}| == |c.sessions| - 1
  {
    ListsWithout(c.order, c.sessions.Keys, k);
    assert c.order[k] in c.order;
    assert (c.sessions - {c.order[k]}).Keys == c.sessions.Keys - {c.order[k]};
  }

  // ----- runs of the cache -----

  datatype CacheAction = SetSession(id: SessionId, sess: StoredSession) | RegisterTurn(id: SessionId, turn: nat) | UnregisterTurn(id: SessionId, turn: nat)

  function Apply(c: Cache, a: CacheAction): Cache {
    match a
    case SetSession(id, sess) => c.Set(id, sess)
    case RegisterTurn(id, turn) => c.Register(id, turn)
    case UnregisterTurn(id, turn) => c.Unregister(id, turn)
  }

  /** The cache after a run, and the largest number of turns that were in flight together. */
  function RunCache(actions: seq<CacheAction>): (Cache, nat) {
    if actions == [] then (EMPTY, 0)
    else
      var (c, peak) := RunCache(actions[..|actions| - 1]);
      var next := Apply(c, actions[|actions| - 1]);
      (next, Max(peak, |next.turns|))
  }

  lemma KeysWithin(c: Cache)
    requires forall id :: id in c.sessions ==> id in c.turns
    ensures |c.sessions| <= |c.turns|
  {
    assert c.sessions.Keys <= c.turns.Keys;
    SubsetSize(c.sessions.Keys, c.turns.Keys);
  }

  lemma {:induction false} SubsetSize<T>(a: set<T>, b: set<T>)
    requires a <= b
    ensures |a| <= |b|
  {
    if a != {} {
      var x :| x in a;
      SubsetSize(a - {x}, b - {x});
    }
  }

  lemma {:induction false} SetBounded(c: Cache, id: SessionId, sess: StoredSession, peak: nat)
    requires c.Agrees() && |c.sessions| <= Max(MAX_IN_MEMORY_SESSIONS, peak) && |c.turns| <= peak
    ensures var next := c.Set(id, sess);
      next.Agrees() && next.turns == c.turns && |next.sessions| <= Max(MAX_IN_MEMORY_SESSIONS, peak)
  {
    hide Lists, Cache.FirstIdle;
    var added := c.(sessions := c.sessions[id := sess], order := if id in c.sessions then c.order else c.order + [id]);
    ListsMore(c.order, c.sessions.Keys, id);
    assert added.sessions.Keys == c.sessions.Keys + {id};
    if |added.sessions| > MAX_IN_MEMORY_SESSIONS {
      EvictsOldestIdle(added);
      if added.FirstIdle(0).None? {
        KeysWithin(added);
      }
    }
  }

  /**
   On every run the order lists exactly the cached sessions, each once, and the cache never holds more than 64
   sessions or the peak number of concurrent turns, whichever is larger.
   */
  lemma {:induction false} CacheBound(actions: seq<CacheAction>)
    ensures var (c, peak) := RunCache(actions);
      c.Agrees() && |c.turns| <= peak && |c.sessions| <= Max(MAX_IN_MEMORY_SESSIONS, peak)
  {
    if actions != [] {
      var front, a := actions[..|actions| - 1], actions[|actions| - 1];
      CacheBound(front);
      var (c, peak) := RunCache(front);
      if a.SetSession? {
        SetBounded(c, a.id, a.sess, peak);
      }
    }
  }

  predicate Holds(c: Cache, id: SessionId, turn: nat) {
    id in c.turns && c.turns[id] == turn
  }

  lemma {:induction false} StepHolds(c: Cache, a: CacheAction, id: SessionId, turn: nat)
    ensures Holds(Apply(c, a), id, turn) <==>
            (Holds(c, id, turn) && a != UnregisterTurn(id, turn)) || (a == RegisterTurn(id, turn) && id !in c.turns)
  {
    if a.SetSession? {
      SetTurns(c, a.id, a.sess);
    }
  }

  lemma SetTurns(c: Cache, id: SessionId, sess: StoredSession)
    ensures c.Set(id, sess).turns == c.turns
  {
  }

  /** The i-th step gave the session to this turn, and the turn has not given it back since. */
  ghost predicate GivenAt(actions: seq<CacheAction>, i: nat, id: SessionId, turn: nat) {
    && i < |actions| && actions[i] == RegisterTurn(id, turn) && id !in RunCache(actions[..i]).0.turns
    && UnregisterTurn(id, turn) !in actions[i + 1..]
  }

  lemma {:induction false} GivenLonger(front: seq<CacheAction>, a: CacheAction, i: nat, id: SessionId, turn: nat)
    ensures i < |front| ==>
              (GivenAt(front + [a], i, id, turn) <==> GivenAt(front, i, id, turn) && a != UnregisterTurn(id, turn))
    ensures i == |front| ==>
              (GivenAt(front + [a], i, id, turn) <==> a == RegisterTurn(id, turn) && id !in RunCache(front).0.turns)
  {
    hide RunCache;
    var all := front + [a];
    if i < |front| {
      assert all[..i] == front[..i] && all[i + 1..] == front[i + 1..] + [a];
    } else if i == |front| {
      assert all[..i] == front && all[i + 1..] == [];
    }
  }

  /** A session is a turn's exactly from the registration that found it free to the turn's own unregistration. */
  lemma {:induction false} HeldIff(actions: seq<CacheAction>, id: SessionId, turn: nat)
    ensures Holds(RunCache(actions).0, id, turn) <==> exists i: nat :: GivenAt(actions, i, id, turn)
  {
    if actions == [] {
      assert forall i: nat :: !GivenAt(actions, i, id, turn);
    } else {
      var n := |actions| - 1;
      var front, a := actions[..n], actions[n];
      assert actions == front + [a] && RunCache(actions).0 == Apply(RunCache(front).0, a);
      HeldIff(front, id, turn);
      StepHolds(RunCache(front).0, a, id, turn);
      GivenLonger(front, a, n, id, turn);
      forall i: nat
        ensures GivenAt(front, i, id, turn) ==> i < n
        ensures GivenAt(actions, i, id, turn) ==> i <= n
      {
      }
      hide RunCache, Apply, Holds, GivenAt;
      if i: nat :| GivenAt(front, i, id, turn) {
        GivenLonger(front, a, i, id, turn);
      }
      if i: nat :| GivenAt(actions, i, id, turn) {
        GivenLonger(front, a, i, id, turn);
      }
    }
  }

  // ----- the durable document -----

  datatype Document = Missing | Unreadable | Holding(entries: map<SessionId, StoredSession>) {
    function Entries(): map<SessionId, StoredSession> {
      if Holding? then entries else map[]
    }

    function Write(id: SessionId, sess: StoredSession): Document {
      Holding(Entries()[id := sess])
    }

    function Read(): Option<map<SessionId, StoredSession>> {
      if Unreadable? then None else Some(Entries())
    }
  }

  /** Only an unreadable document fails to read, and a written one reads back the write and all it held. */
  lemma ReadsBack(d: Document, id: SessionId, sess: StoredSession)
    ensures d.Read().None? <==> d == Unreadable
    ensures d == Missing ==> d.Read() == Some(map[])
    ensures d.Write(id, sess).Read() == Some((if d.Read().Some? then d.Read().value else map[])[id := sess])
  {
  }

  class Store {
    var document: Document

    constructor (document: Document)
      ensures this.document == document
    {
      this.document := document;
    }

    method Read() returns (stored: Option<map<SessionId, StoredSession>>)
      ensures stored == document.Read()
    {
      match document
      case Missing => return Some(map[]);
      case Unreadable => return None;
      case Holding(entries) => return Some(entries);
    }

    /** Read, change one entry, replace the document; what cannot be parsed is replaced. */
    method Write(id: SessionId, sess: StoredSession)
      modifies this
      ensures document == old(document).Write(id, sess)
    {
      var stored := Read();
      var sessions := if stored.Some? then stored.value else map[];
      sessions := sessions[id := sess];
      document := Holding(sessions);
    }
  }

  // ----- cache and document together -----

  datatype Bridge = Bridge(cache: Cache, document: Document) {
    function Resolve(id: SessionId): Option<StoredSession> {
      if id in cache.sessions then Some(cache.sessions[id])
      else if id in document.Entries() then Some(document.Entries()[id])
      else None
    }

    /** resolveSession also caches what it found in the document. */
    function AfterResolve(id: SessionId): Bridge {
      if id in cache.sessions || Resolve(id).None? then this
      else this.(cache := cache.Set(id, Resolve(id).value))
    }
  }

  method ResolveSession(cache: SessionCache, store: Store, id: SessionId) returns (sess: Option<StoredSession>)
    modifies cache
    ensures sess == old(Bridge(cache.Value(), store.document)).Resolve(id)
    ensures Bridge(cache.Value(), store.document) == old(Bridge(cache.Value(), store.document)).AfterResolve(id)
  {
    if id in cache.sessions {
      return Some(cache.sessions[id]);
    }
    var stored := store.Read();
    if stored.None? {
      return None;
    }
    if id !in stored.value {
      return None;
    }
    cache.SetSession(id, stored.value[id]);
    return Some(stored.value[id]);
  }

  /** Handler steps: a new session is only cached, a saved one is cached and written, a restart forgets the cache. */
  datatype BridgeAction =
    | Create(id: SessionId)
    | Save(id: SessionId, sess: StoredSession)
    | Load(id: SessionId)
    | TurnBegins(id: SessionId, turn: nat)
    | TurnEnds(id: SessionId, turn: nat)
    | Restart

  const NEW_SESSION := StoredSession("", -1, "")

  function Act(b: Bridge, a: BridgeAction): Bridge {
    match a
    case Create(id) => b.(cache := b.cache.Set(id, NEW_SESSION))
    case Save(id, sess) => Bridge(b.cache.Set(id, sess), b.document.Write(id, sess))
    case Load(id) => b.AfterResolve(id)
    case TurnBegins(id, turn) => b.(cache := b.cache.Register(id, turn))
    case TurnEnds(id, turn) => b.(cache := b.cache.Unregister(id, turn))
    case Restart => b.(cache := EMPTY)
  }

  function RunBridge(b: Bridge, actions: seq<BridgeAction>): Bridge {
    if actions == [] then b else Act(RunBridge(b, actions[..|actions| - 1]), actions[|actions| - 1])
  }

  /** The plain map the two layers stand for: what was last written for each id. */
  function Saved(initial: Document, actions: seq<BridgeAction>): map<SessionId, StoredSession> {
    if actions == [] then initial.Entries()
    else
      var saved, a := Saved(initial, actions[..|actions| - 1]), actions[|actions| - 1];
      if a.Save? then saved[a.id := a.sess] else saved
  }

  /** New ids are fresh: never created for a session already written. */
  ghost predicate FreshIds(initial: Document, actions: seq<BridgeAction>) {
    forall i :: 0 <= i < |actions| && actions[i].Create? ==> actions[i].id !in Saved(initial, actions[..i])
  }

  lemma SetKeeps(c: Cache, id: SessionId, sess: StoredSession)
    ensures forall k :: k in c.Set(id, sess).sessions ==>
              (k == id && c.Set(id, sess).sessions[k] == sess) || (k in c.sessions && k != id && c.Set(id, sess).sessions[k] == c.sessions[k])
  {
  }

  ghost predicate Current(b: Bridge, saved: map<SessionId, StoredSession>) {
    && b.document.Entries() == saved
    && forall id :: id in b.cache.sessions && id in saved ==> b.cache.sessions[id] == saved[id]
  }

  lemma StepCurrent(b: Bridge, saved: map<SessionId, StoredSession>, a: BridgeAction)
    requires Current(b, saved) && (a.Create? ==> a.id !in saved)
    ensures Current(Act(b, a), if a.Save? then saved[a.id := a.sess] else saved)
  {
    hide Cache.Set, Cache.Register, Cache.Unregister;
    match a
    case Create(id) => SetKeeps(b.cache, id, NEW_SESSION);
    case Save(id, sess) => SetKeeps(b.cache, id, sess);
    case Load(id) =>
      if id !in b.cache.sessions && b.Resolve(id).Some? {
        SetKeeps(b.cache, id, b.Resolve(id).value);
      }
    case TurnBegins(id, turn) => TurnsKeepSessions(b.cache, id, turn);
    case TurnEnds(id, turn) => TurnsKeepSessions(b.cache, id, turn);
    case Restart =>
  }

  /** The document holds exactly the saved map, and what is cached of it is current. */
  lemma {:induction false} CacheIsCurrent(initial: Document, actions: seq<BridgeAction>)
    requires FreshIds(initial, actions)
    ensures Current(RunBridge(Bridge(EMPTY, initial), actions), Saved(initial, actions))
  {
    if actions != [] {
      hide Act, Current;
      var front, a := actions[..|actions| - 1], actions[|actions| - 1];
      FreshFront(initial, actions);
      CacheIsCurrent(initial, front);
      StepCurrent(RunBridge(Bridge(EMPTY, initial), front), Saved(initial, front), a);
    }
  }

  lemma TurnsKeepSessions(c: Cache, id: SessionId, turn: nat)
    ensures c.Register(id, turn).sessions == c.sessions && c.Unregister(id, turn).sessions == c.sessions
  {
  }

  lemma FreshFront(initial: Document, actions: seq<BridgeAction>)
    requires FreshIds(initial, actions) && actions != []
    ensures var front, a := actions[..|actions| - 1], actions[|actions| - 1];
      FreshIds(initial, front) && (a.Create? ==> a.id !in Saved(initial, front))
  {
    var front := actions[..|actions| - 1];
    forall i | 0 <= i < |front| && front[i].Create?
      ensures front[i].id !in Saved(initial, front[..i])
    {
      assert actions[..i] == front[..i];
    }
  }

  ghost predicate NewOrWritten(b: Bridge, id: SessionId) {
    id in b.cache.sessions && id !in b.document.Entries() ==> b.cache.sessions[id] == NEW_SESSION
  }

  lemma StepNewOrWritten(b: Bridge, a: BridgeAction, id: SessionId)
    requires NewOrWritten(b, id)
    ensures NewOrWritten(Act(b, a), id)
  {
    hide Cache.Set, Cache.Register, Cache.Unregister;
    match a
    case Create(other) => SetKeeps(b.cache, other, NEW_SESSION);
    case Save(other, sess) => SetKeeps(b.cache, other, sess);
    case Load(other) =>
      if other !in b.cache.sessions && b.Resolve(other).Some? {
        SetKeeps(b.cache, other, b.Resolve(other).value);
      }
    case TurnBegins(other, turn) => TurnsKeepSessions(b.cache, other, turn);
    case TurnEnds(other, turn) => TurnsKeepSessions(b.cache, other, turn);
    case Restart =>
  }

  /** A cached session that was never written is as it was created. */
  lemma {:induction false} UnwrittenIsNew(initial: Document, actions: seq<BridgeAction>, id: SessionId)
    ensures NewOrWritten(RunBridge(Bridge(EMPTY, initial), actions), id)
  {
    if actions != [] {
      hide NewOrWritten, Act;
      UnwrittenIsNew(initial, actions[..|actions| - 1], id);
      StepNewOrWritten(RunBridge(Bridge(EMPTY, initial), actions[..|actions| - 1]), actions[|actions| - 1], id);
    }
  }

  /**
   After any evictions and restarts, resolving a session gives the value last written for it, and for one never written
   the new session or nothing.
   */
  lemma ResolveGivesLastSaved(initial: Document, actions: seq<BridgeAction>, id: SessionId)
    requires FreshIds(initial, actions)
    ensures var b, saved := RunBridge(Bridge(EMPTY, initial), actions), Saved(initial, actions);
      if id in saved then b.Resolve(id) == Some(saved[id]) else b.Resolve(id) in {None, Some(NEW_SESSION)}
  {
    CacheIsCurrent(initial, actions);
    UnwrittenIsNew(initial, actions, id);
  }

  lemma SetAgrees(c: Cache, id: SessionId, sess: StoredSession)
    requires c.Agrees()
    ensures c.Set(id, sess).Agrees() && c.Set(id, sess).turns == c.turns
  {
    SetBounded(c, id, sess, |c.sessions| + |c.turns|);
  }

  lemma StepAgrees(b: Bridge, a: BridgeAction)
    requires b.cache.Agrees()
    ensures Act(b, a).cache.Agrees()
  {
    hide Lists, Cache.Set;
    match a
    case Create(id) => SetAgrees(b.cache, id, NEW_SESSION);
    case Save(id, sess) => SetAgrees(b.cache, id, sess);
    case Load(id) =>
      if id !in b.cache.sessions && b.Resolve(id).Some? {
        SetAgrees(b.cache, id, b.Resolve(id).value);
      }
    case TurnBegins(id, turn) => TurnsKeepSessions(b.cache, id, turn);
    case TurnEnds(id, turn) => TurnsKeepSessions(b.cache, id, turn);
    case Restart => NothingListed();
  }

  /** The bridge's cache lists exactly its sessions, each once, on every run. */
  lemma {:induction false} BridgeAgrees(initial: Document, actions: seq<BridgeAction>)
    ensures RunBridge(Bridge(EMPTY, initial), actions).cache.Agrees()
  {
    NothingListed();
    if actions != [] {
      hide Act, Cache.Agrees;
      BridgeAgrees(initial, actions[..|actions| - 1]);
      StepAgrees(RunBridge(Bridge(EMPTY, initial), actions[..|actions| - 1]), actions[|actions| - 1]);
    }
  }

  lemma NothingListed()
    ensures EMPTY.Agrees()
  {
  }

  /** Of the sessions without a turn, the one listed first. */
  ghost predicate OldestIdle(c: Cache, id: SessionId) {
    id in c.order && id !in c.turns && forall i, j :: 0 <= i < j < |c.order| && c.order[j] == id ==> c.order[i] in c.turns
  }

  /** The session a step puts into the cache, if any. */
  function Caches(b: Bridge, a: BridgeAction): Option<SessionId> {
    match a
    case Create(id) => Some(id)
    case Save(id, _) => Some(id)
    case Load(id) => if id !in b.cache.sessions && b.Resolve(id).Some? then Some(id) else None
    case _ => None
  }

  /** A Set keeps a cached session unless the bound is passed and that session is the oldest idle one. */
  lemma {:induction false} SetEvictsIff(c: Cache, other: SessionId, sess: StoredSession, id: SessionId)
    requires c.Agrees() && id in c.sessions
    ensures id !in c.Set(other, sess).sessions <==>
            |c.sessions.Keys + {other}| > MAX_IN_MEMORY_SESSIONS && OldestIdle(c, id)
  {
    hide Lists, Cache.FirstIdle, OldestIdle;
    var added := c.(sessions := c.sessions[other := sess], order := if other in c.sessions then c.order else c.order + [other]);
    ListsMore(c.order, c.sessions.Keys, other);
    assert added.sessions.Keys == c.sessions.Keys + {other};
    assert |added.sessions| == |added.sessions.Keys| && added.Agrees();
    OldestOfAdded(c, added, id);
    if |added.sessions| > MAX_IN_MEMORY_SESSIONS {
      EvictsOldestIdle(added);
      FirstIdleIsOldest(added, id);
    }
  }

  lemma OldestOfAdded(c: Cache, added: Cache, id: SessionId)
    requires c.Agrees() && id in c.sessions && added.Agrees() && added.turns == c.turns
    requires added.order == c.order || exists newer :: added.order == c.order + [newer]
    ensures OldestIdle(added, id) <==> OldestIdle(c, id)
  {
    assert id in c.order;
    var k :| 0 <= k < |c.order| && c.order[k] == id;
    assert added.order[k] == id;
    assert forall i :: 0 <= i < k ==> added.order[i] == c.order[i];
  }

  lemma FirstIdleIsOldest(c: Cache, id: SessionId)
    requires c.Agrees() && id in c.sessions
    ensures OldestIdle(c, id) <==> (c.FirstIdle(0).Some? && c.order[c.FirstIdle(0).value] == id)
  {
    assert id in c.order;
    var k :| 0 <= k < |c.order| && c.order[k] == id;
  }

  /**
   A cached session that was never written is lost at a step exactly when the step is a restart, or caches a session
   past the bound while this one is the oldest idle one, and is not its own first write.
   */
  lemma UnwrittenLostIff(b: Bridge, a: BridgeAction, id: SessionId)
    requires b.cache.Agrees() && id in b.cache.sessions && id !in b.document.Entries()
    ensures Act(b, a).Resolve(id) == None <==>
      a.Restart? ||
      (Caches(b, a).Some? && !(a.Save? && a.id == id) &&
       |b.cache.sessions.Keys + {Caches(b, a).value}| > MAX_IN_MEMORY_SESSIONS && OldestIdle(b.cache, id))
  {
    hide Lists, Cache.Set, OldestIdle;
    match a
    case Create(other) => SetEvictsIff(b.cache, other, NEW_SESSION, id);
    case Save(other, sess) => SetEvictsIff(b.cache, other, sess, id);
    case Load(other) =>
      if Caches(b, a).Some? {
        SetEvictsIff(b.cache, other, b.Resolve(other).value, id);
      }
    case TurnBegins(other, turn) => TurnsKeepSessions(b.cache, other, turn);
    case TurnEnds(other, turn) => TurnsKeepSessions(b.cache, other, turn);
    case Restart =>
  }

  /** So a session that was created and never written is lost when a new one is created past the bound. */
  lemma CreatedSessionIsForgotten(b: Bridge, id: SessionId, newer: SessionId)
    requires b.cache.Agrees() && id in b.cache.sessions && id !in b.document.Entries()
    requires |b.cache.sessions| >= MAX_IN_MEMORY_SESSIONS && OldestIdle(b.cache, id)
    requires newer !in b.cache.sessions
    ensures b.Resolve(id).Some? && Act(b, Create(newer)).Resolve(id) == None
  {
    hide Lists, Cache.Set, OldestIdle;
    assert |b.cache.sessions.Keys + {newer}| == |b.cache.sessions| + 1;
    UnwrittenLostIff(b, Create(newer), id);
  }

  function Creations(ids: seq<SessionId>): (actions: seq<BridgeAction>)
    ensures |actions| == |ids|
  {
    seq(|ids|, i requires 0 <= i < |ids| => Create(ids[i]))
  }

  ghost predicate Distinct(ids: seq<SessionId>) {
    forall i, j :: 0 <= i < j < |ids| ==> ids[i] != ids[j]
  }

  lemma SetFits(c: Cache, id: SessionId, sess: StoredSession)
    requires id !in c.sessions && |c.sessions| < MAX_IN_MEMORY_SESSIONS
    ensures c.Set(id, sess) == Cache(c.sessions[id := sess], c.order + [id], c.turns)
    ensures |c.Set(id, sess).sessions| == |c.sessions| + 1
  {
    assert c.sessions[id := sess].Keys == c.sessions.Keys + {id};
    assert |c.sessions[id := sess]| == |c.sessions[id := sess].Keys| && |c.sessions| == |c.sessions.Keys|;
  }

  lemma CreationsSnoc(b: Bridge, ids: seq<SessionId>)
    requires ids != []
    ensures var n := |ids| - 1; RunBridge(b, Creations(ids)) == Act(RunBridge(b, Creations(ids[..n])), Create(ids[n]))
  {
    hide Act;
    assert Creations(ids)[..|ids| - 1] == Creations(ids[..|ids| - 1]);
  }

  lemma InLonger(ids: seq<SessionId>, id: SessionId, k: SessionId)
    ensures k in ids + [id] <==> k in ids || k == id
  {
  }

  /** Up to the bound, new sessions are all cached, in order. */
  lemma {:induction false} CreatedAreCached(initial: Document, ids: seq<SessionId>)
    requires Distinct(ids) && |ids| <= MAX_IN_MEMORY_SESSIONS
    ensures var b := RunBridge(Bridge(EMPTY, initial), Creations(ids));
      && b.document == initial && b.cache.order == ids && b.cache.turns == map[]
      && (forall id :: id in b.cache.sessions <==> id in ids) && |b.cache.sessions| == |ids|
  {
    if ids != [] {
      var n := |ids| - 1;
      var front, id := ids[..n], ids[n];
      assert id !in front && Distinct(front) && ids == front + [id];
      hide RunBridge, Cache.Set, Creations, Distinct;
      CreatedAreCached(initial, front);
      CreationsSnoc(Bridge(EMPTY, initial), ids);
      SetFits(RunBridge(Bridge(EMPTY, initial), Creations(front)).cache, id, NEW_SESSION);
      forall k
        ensures k in ids <==> k in front || k == id
      {
        InLonger(front, id, k);
      }
    }
  }

  /** From the empty cache: of any 65 sessions created one after another, the first is gone, although its creation was answered. */
  lemma FirstOfManyIsForgotten(initial: Document, ids: seq<SessionId>)
    requires Distinct(ids) && |ids| == MAX_IN_MEMORY_SESSIONS + 1 && ids[0] !in initial.Entries()
    ensures RunBridge(Bridge(EMPTY, initial), Creations(ids[..1])).Resolve(ids[0]) == Some(NEW_SESSION)
    ensures RunBridge(Bridge(EMPTY, initial), Creations(ids)).Resolve(ids[0]) == None
  {
    var n := MAX_IN_MEMORY_SESSIONS;
    CreatedAreCached(initial, ids[..1]);
    UnwrittenIsNew(initial, Creations(ids[..1]), ids[0]);
    CreatedAreCached(initial, ids[..n]);
    BridgeAgrees(initial, Creations(ids[..n]));
    CreationsSnoc(Bridge(EMPTY, initial), ids);
    hide RunBridge, Creations;
    var b := RunBridge(Bridge(EMPTY, initial), Creations(ids[..n]));
    assert ids[..1][0] == ids[0] && ids[..n][0] == ids[0];
    assert ids[0] in ids[..1] && ids[0] in ids[..n] && ids[n] !in ids[..n];
    hide Lists, Cache.Set;
    CreatedSessionIsForgotten(b, ids[0], ids[n]);
  }
}
