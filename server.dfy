/**
  The API server's session handling: a pool of conversation managers keyed by
  conversation id, capped at fifty entries and evicting the earliest-inserted key, and
  the WebSocket chat loop's decision, per received message, of which frames to send
  and which manager to use.
*/
module Server {
  import opened Wrappers
  import opened Dicts
  import opened MultiSwarm
  import opened Conversation

  /** The pool's capacity. */
  const MaxManagers: nat := 50

  /** Python truthiness of an optional conversation id: present and non-empty. */
  predicate Truthy(id: Option<string>) {
    id.Some? && id.value != ""
  }

  /** `conversation_id and conversation_id in _managers`. */
  predicate Pooled<V>(d: Dict<string, V>, id: Option<string>) {
    Truthy(id) && Get(d, id.value).Some?
  }

  /**
    What `ConversationManager()` takes from its surroundings: the `GEMINI_API_KEY`
    environment variable, the model, the clock, and the three workers' behaviour.
  */
  datatype Setup = Setup(env: Option<string>, generate: (nat, Prompt) -> Reply, now: int,
                         research: Fields -> Outcome, analyse: Fields -> Outcome, explore: Fields -> Outcome)

  /** The pool after an insertion: over capacity, the first (earliest-inserted) key goes. */
  function Capped<V>(d: Dict<string, V>): Dict<string, V> {
    if |d| > MaxManagers then Delete(d, d[0].0) else d
  }

  /**
    Inserting into a pool within capacity and capping it keeps the keys distinct and the
    size within capacity, keeps the inserted entry, and either leaves the insertion as it
    is or, when the key was new and the pool full, drops exactly the earliest entry.
  */
  lemma {:induction false} InsertCapped<V>(d: Dict<string, V>, k: string, v: V)
    requires UniqueKeys(d) && |d| <= MaxManagers
    ensures UniqueKeys(Capped(Put(d, k, v))) && |Capped(Put(d, k, v))| <= MaxManagers
    ensures Get(Capped(Put(d, k, v)), k) == Some(v)
    ensures |Put(d, k, v)| <= MaxManagers ==> Capped(Put(d, k, v)) == Put(d, k, v)
    ensures |Put(d, k, v)| > MaxManagers ==>
      k !in Keys(d) && |d| == MaxManagers && Capped(Put(d, k, v)) == d[1..] + [(k, v)]
  {
    var p := Put(d, k, v);
    PutKeepsUnique(d, k, v);
    GetPut(d, k, v, k);
    if |p| > MaxManagers {
      PutEntries(d, k, v);
      assert k !in Keys(d) && p == d + [(k, v)];
      assert Capped(p) == p[1..] == d[1..] + [(k, v)];
      assert d[0].0 in Keys(d);
      GetDelete(p, d[0].0, k);
      DeleteKeepsUnique(p, d[0].0);
    }
  }

  /**
    Eviction follows insertion order, not use: in a full pool, the earliest-inserted
    conversation is dropped by the next new conversation even if it was just looked up,
    since a lookup leaves the pool as it was.
  */
  lemma EvictsEarliestInserted<V>(d: Dict<string, V>, k: string, v: V)
    requires UniqueKeys(d) && |d| == MaxManagers && k !in Keys(d)
    ensures d[0].0 !in Keys(Capped(Put(d, k, v)))
    ensures forall i :: 1 <= i < |d| ==> Get(Capped(Put(d, k, v)), d[i].0) == Some(d[i].1)
  {
    InsertCapped(d, k, v);
    DropsFirst(d, k, v);
    KeepsRest(d, k, v);
  }

  /** Shifting out the first entry and appending a new key leaves the first key out. */
  lemma DropsFirst<V>(d: Dict<string, V>, k: string, v: V)
    requires UniqueKeys(d) && d != [] && k !in Keys(d)
    ensures d[0].0 !in Keys(d[1..] + [(k, v)])
  {
    var r := d[1..] + [(k, v)];
    assert d[0].0 in Keys(d);
    forall j | 0 <= j < |r| ensures Keys(r)[j] != d[0].0 {
      if j < |d| - 1 { assert r[j] == d[j + 1]; }
    }
  }

  /** Shifting out the first entry and appending a new key keeps every other entry. */
  lemma KeepsRest<V>(d: Dict<string, V>, k: string, v: V)
    requires d != [] && UniqueKeys(d[1..] + [(k, v)])
    ensures forall i :: 1 <= i < |d| ==> Get(d[1..] + [(k, v)], d[i].0) == Some(d[i].1)
  {
    var r := d[1..] + [(k, v)];
    forall i | 1 <= i < |d| ensures Get(r, d[i].0) == Some(d[i].1) {
      assert r[i - 1] == d[i];
      GetAt(r, i - 1);
    }
  }

  /** Every manager is filed under its own conversation id. */
  ghost predicate Filed(d: Dict<string, ConversationManager>) {
    forall i :: 0 <= i < |d| ==> d[i].1.conversationId == d[i].0
  }

  /** A manager looked up by id carries that id. */
  lemma FiledGet(d: Dict<string, ConversationManager>, id: string)
    requires Filed(d) && Get(d, id).Some?
    ensures Get(d, id).value.conversationId == id
  {
    var i := GetIndex(d, id);
  }

  /** Filing a manager under its own id keeps every manager under its own id. */
  lemma FiledPut(d: Dict<string, ConversationManager>, m: ConversationManager)
    requires Filed(d)
    ensures Filed(Put(d, m.conversationId, m))
  {
    var p := Put(d, m.conversationId, m);
    PutEntries(d, m.conversationId, m);
    forall i | 0 <= i < |p| ensures p[i].1.conversationId == p[i].0 {
      assert p[i] == (m.conversationId, m) || p[i] == d[i];
    }
  }

  /** Filing a manager under its own id and capping the pool keeps every manager under its own id. */
  lemma FiledInsert(d: Dict<string, ConversationManager>, m: ConversationManager)
    requires Filed(d)
    ensures Filed(Capped(Put(d, m.conversationId, m)))
  {
    var p := Put(d, m.conversationId, m);
    FiledPut(d, m);
    if |p| > MaxManagers {
      var r := p[1..];
      assert Capped(p) == r;
      forall i | 0 <= i < |r| ensures r[i].1.conversationId == r[i].0 {
        assert r[i] == p[i + 1];
      }
    }
  }

  /** A pool stays valid, and keeps the new manager, when a manager is filed under its own id and the pool capped. */
  lemma PoolInsert(d: Dict<string, ConversationManager>, m: ConversationManager)
    requires UniqueKeys(d) && |d| <= MaxManagers && Filed(d)
    ensures UniqueKeys(Capped(Put(d, m.conversationId, m))) && |Capped(Put(d, m.conversationId, m))| <= MaxManagers
    ensures Filed(Capped(Put(d, m.conversationId, m)))
    ensures Get(Capped(Put(d, m.conversationId, m)), m.conversationId) == Some(m)
  {
    InsertCapped(d, m.conversationId, m);
    FiledInsert(d, m);
  }

  /** The module-level `_managers` dictionary. */
  class ManagerPool {
    var managers: Dict<string, ConversationManager>

    /** Within capacity, one entry per id, and every manager filed under its own id. */
    ghost predicate Valid()
      reads this
    {
      && |managers| <= MaxManagers
      && UniqueKeys(managers)
      && Filed(managers)
    }

    /** The empty pool at import time. */
    constructor ()
      ensures Valid() && managers == []
    {
      managers := [];
    }

    /**
      `get_manager`: a pooled id returns its manager and leaves the pool alone; otherwise
      a new manager is made, under the given id when there is one and under the fresh
      `uuid` otherwise, inserted, and the pool capped. Without an API key the manager's
      constructor raises and the pool is left alone (`None`).
    */
    method GetManager(conversationId: Option<string>, uuid: string, setup: Setup) returns (r: Option<ConversationManager>)
      requires Valid()
      modifies this
      ensures Valid()
      ensures Pooled(old(managers), conversationId) ==>
        r == Get(old(managers), conversationId.value) && managers == old(managers)
      ensures !Pooled(old(managers), conversationId) ==> (r.None? <==> ResolveApiKey("", setup.env).None?)
      ensures !Pooled(old(managers), conversationId) && r.None? ==> managers == old(managers)
      ensures !Pooled(old(managers), conversationId) && r.Some? ==>
        && fresh(r.value)
        && r.value.conversationId == (if Truthy(conversationId) then conversationId.value else uuid)
      ensures !Pooled(old(managers), conversationId) && r.Some? ==>
        managers == Capped(Put(old(managers), r.value.conversationId, r.value))
      ensures r.Some? ==> Get(managers, r.value.conversationId) == r
    {
      if Pooled(managers, conversationId) {
        r := Get(managers, conversationId.value);
        FiledGet(managers, conversationId.value);
        return;
      }
      var id := if Truthy(conversationId) then conversationId.value else uuid;
      r := NewConversationManager("", setup.env, id, setup.generate, setup.now,
                                  setup.research, setup.analyse, setup.explore);
      if r.None? {
        return;
      }
      var mgr := r.value;
      PoolInsert(managers, mgr);
      managers := Put(managers, id, mgr);
      if |managers| > MaxManagers {
        var oldest := managers[0].0;
        managers := Delete(managers, oldest);
      }
    }
  }

  /** A JSON frame the server sends over the socket. */
  datatype Frame =
    | ErrorFrame(content: string)
    | Typing(conversationId: string)
    | ResponseFrame(content: string, conversationId: string)

  /** Whether the loop fetches a manager: none is held yet, or another non-empty id arrives. */
  predicate Refetch(held: Option<ConversationManager>, conversationId: Option<string>) {
    held.None? || (Truthy(conversationId) && conversationId.value != held.value.conversationId)
  }

  /** One `websocket_chat` connection: the manager it holds, and the shared pool. */
  class ChatConnection {
    const pool: ManagerPool
    var held: Option<ConversationManager>

    constructor (pool: ManagerPool)
      ensures this.pool == pool && held.None?
    {
      this.pool := pool;
      held := None;
    }

    /**
      One turn of the loop for a received `message` and `conversation_id`. An empty
      message gets an error frame and changes nothing. Otherwise the manager is fetched
      when `Refetch` says so and kept as it is otherwise; the typing frame and the
      response frame, both under the manager's id, follow. `reply` is what the manager's
      `process_message` answers. When `get_manager` raises, the loop ends (`open` false)
      having sent nothing.
    */
    method Receive(message: string, conversationId: Option<string>, uuid: string, setup: Setup, reply: string)
      returns (frames: seq<Frame>, open: bool)
      requires pool.Valid()
      modifies this, pool
      ensures pool.Valid()
      ensures message == "" ==>
        frames == [ErrorFrame("Empty message")] && open && held == old(held) && pool.managers == old(pool.managers)
      ensures message != "" && !Refetch(old(held), conversationId) ==>
        && held == old(held) && pool.managers == old(pool.managers) && open
        && frames == [Typing(held.value.conversationId), ResponseFrame(reply, held.value.conversationId)]
      ensures message != "" && Refetch(old(held), conversationId) && Pooled(old(pool.managers), conversationId) ==>
        && held == Get(old(pool.managers), conversationId.value) && pool.managers == old(pool.managers) && open
        && frames == [Typing(conversationId.value), ResponseFrame(reply, conversationId.value)]
      ensures message != "" && Refetch(old(held), conversationId)
              && !Pooled(old(pool.managers), conversationId) ==>
        && (open <==> ResolveApiKey("", setup.env).Some?)
        && (!open ==> frames == [] && held == old(held) && pool.managers == old(pool.managers))
        && (open ==>
          && held.Some? && fresh(held.value)
          && held.value.conversationId == (if Truthy(conversationId) then conversationId.value else uuid)
          && pool.managers == Capped(Put(old(pool.managers), held.value.conversationId, held.value))
          && frames == [Typing(held.value.conversationId), ResponseFrame(reply, held.value.conversationId)])
      ensures open && message != "" && Refetch(old(held), conversationId) ==>
        held.Some? && Get(pool.managers, held.value.conversationId) == held
    {
      if message == "" {
        return [ErrorFrame("Empty message")], true;
      }
      if Refetch(held, conversationId) {
        var r := pool.GetManager(conversationId, uuid, setup);
        if r.None? {
          return [], false;
        }
        held := r;
      }
      var id := held.value.conversationId;
      frames := [Typing(id), ResponseFrame(reply, id)];
      open := true;
    }
  }
}
