/** The WebSocket hub: one goroutine over bounded client queues, among pumps that subscribe,
    unsubscribe and drain whenever they like. */
module Hub {
  import opened Wrappers

  const CAPACITY := 256

  datatype Message = Message(channel: string, body: string)

  /** What can sit in a client's queue: a broadcast, or the answer to a ping. */
  datatype Item = Data(msg: Message) | Pong

  /** `closes` counts how often the send channel has been closed; `taken` is what the write pump
      has drained so far. */
  datatype Client = Client(queue: seq<Item>, taken: seq<Item>, closes: nat, channels: set<string>)

  /** The hub reaches a client in its loop over one broadcast: the client afterwards, and whether
      it stays registered. */
  function Visited(c: Client, m: Message): (Client, bool) {
    if m.channel !in c.channels then (c, true)
    else if |c.queue| < CAPACITY then (c.(queue := c.queue + [Data(m)]), true)
    else (c.(closes := c.closes + 1), false)
  }

  function Subscribed(c: Client, channel: string): Client { c.(channels := c.channels + {channel}) }

  function Unsubscribed(c: Client, channel: string): Client { c.(channels := c.channels - {channel}) }

  function Close(c: Client): Client { c.(closes := c.closes + 1) }

  // ----- All interleavings -----

  type Id = nat

  /** `current` and `todo` are the hub's position in its loop over the clients; `gone` are the
      clients whose read pump has returned. Sending on a closed channel ends the whole process. */
  datatype State = State(
    conns: map<Id, Client>, joined: set<Id>, gone: set<Id>, clients: set<Id>,
    inbox: seq<Message>, current: Option<Message>, todo: set<Id>, stopped: bool, crashed: bool)

  const INITIAL := State(map[], {}, {}, {}, [], None, {}, false, false)

  datatype Action =
    // The hub
    | Join(id: Id)
    | Leave(id: Id)
    | Receive
    | Visit(id: Id)
    | Finish
    | Stop
    // Everybody else
    | Connect(id: Id, channels: set<string>)
    | Publish(msg: Message)
    | Subscribe(id: Id, channel: string)
    | Unsubscribe(id: Id, channel: string)
    | Ping(id: Id)
    | Drain(id: Id, n: nat)

  predicate Idle(s: State) { !s.stopped && s.current.None? }

  /** A client's read pump runs from its registration until it asks to be unregistered. */
  predicate Reading(s: State, id: Id) { id in s.conns && id in s.joined && id !in s.gone }

  predicate Enabled(s: State, a: Action) {
    !s.crashed &&
    match a
    case Join(id) => Idle(s) && id in s.conns && id !in s.joined
    case Leave(id) => Idle(s) && Reading(s, id)
    case Receive => Idle(s) && s.inbox != []
    case Visit(id) => !s.stopped && s.current.Some? && id in s.todo && id in s.conns
    case Finish => !s.stopped && s.current.Some? && s.todo == {}
    case Stop => Idle(s)
    case Connect(id, _) => id !in s.conns
    case Publish(_) => true
    case Subscribe(id, _) => Reading(s, id)
    case Unsubscribe(id, _) => Reading(s, id)
    case Ping(id) => Reading(s, id)
    case Drain(id, n) => id in s.conns && n <= |s.conns[id].queue|
  }

  function Next(s: State, a: Action): State
    requires Enabled(s, a)
  {
    match a
    case Join(id) => s.(joined := s.joined + {id}, clients := s.clients + {id})
    case Leave(id) =>
      if id in s.clients
      then s.(clients := s.clients - {id}, gone := s.gone + {id}, conns := s.conns[id := Close(s.conns[id])])
      else s.(gone := s.gone + {id})
    case Receive => s.(current := Some(s.inbox[0]), inbox := s.inbox[1..], todo := s.clients)
    case Visit(id) =>
      var (c, stays) := Visited(s.conns[id], s.current.value);
      s.(conns := s.conns[id := c], clients := if stays then s.clients else s.clients - {id}, todo := s.todo - {id})
    case Finish => s.(current := None)
    case Stop =>
      s.(stopped := true,
         conns := map id | id in s.conns :: if id in s.clients then Close(s.conns[id]) else s.conns[id])
    case Connect(id, channels) => s.(conns := s.conns[id := Client([], [], 0, channels)])
    case Publish(m) => if |s.inbox| < CAPACITY then s.(inbox := s.inbox + [m]) else s
    case Subscribe(id, ch) => s.(conns := s.conns[id := Subscribed(s.conns[id], ch)])
    case Unsubscribe(id, ch) => s.(conns := s.conns[id := Unsubscribed(s.conns[id], ch)])
    case Ping(id) =>
      if s.conns[id].closes > 0 then s.(crashed := true)
      else if |s.conns[id].queue| < CAPACITY
      then s.(conns := s.conns[id := s.conns[id].(queue := s.conns[id].queue + [Pong])]) else s
    case Drain(id, n) =>
      var c := s.conns[id];
      s.(conns := s.conns[id := c.(queue := c.queue[n..], taken := c.taken + c.queue[..n])])
  }

  /** The hub visits these clients, if it can. */
  function VisitEach(s: State, ids: seq<Id>): Option<State> {
    if ids == [] then Some(s)
    else
      var n := |ids| - 1;
      var before := VisitEach(s, ids[..n]);
      if before.Some? && Enabled(before.value, Visit(ids[n])) then Some(Next(before.value, Visit(ids[n]))) else None
  }

  lemma VisitMore(s: State, ids: seq<Id>, s': State, id: Id)
    requires VisitEach(s, ids) == Some(s') && Enabled(s', Visit(id))
    ensures VisitEach(s, ids + [id]) == Some(Next(s', Visit(id)))
  {
    assert (ids + [id])[..|ids|] == ids;
  }

  /** Receiving a broadcast, visiting these clients with it and finishing, if that can be done. */
  function Delivery(s: State, ids: seq<Id>): Option<State>
    requires Enabled(s, Receive)
  {
    var v := VisitEach(Next(s, Receive), ids);
    if v.Some? && Enabled(v.value, Finish) then Some(Next(v.value, Finish)) else None
  }

  // ----- The hub's goroutine -----

  class WSClient {
    var queue: seq<Item>
    var taken: seq<Item>
    var closes: nat
    var channels: set<string>

    constructor (channels: set<string>)
      ensures View() == Client([], [], 0, channels)
    {
      queue, taken, closes, this.channels := [], [], 0, channels;
    }

    function View(): Client
      reads this
    {
      Client(queue, taken, closes, channels)
    }

    ghost predicate Is(c: Client)
      reads this
    {
      queue == c.queue && taken == c.taken && closes == c.closes && channels == c.channels
    }

    method Subscribe(channel: string)
      modifies this
      ensures View() == Subscribed(old(View()), channel)
      ensures channels == old(channels) + {channel}
    {
      channels := channels + {channel};
    }

    method Unsubscribe(channel: string)
      modifies this
      ensures View() == Unsubscribed(old(View()), channel)
      ensures channels == old(channels) - {channel}
    {
      channels := channels - {channel};
    }

    /** The body of the hub's loop over its clients: false if the client has to go. */
    method Offer(m: Message) returns (stays: bool)
      modifies this
      ensures (View(), stays) == Visited(old(View()), m)
      ensures !stays <==> m.channel in channels && |old(queue)| >= CAPACITY
    {
      if m.channel !in channels {
        return true;
      }
      if |queue| < CAPACITY {
        queue := queue + [Data(m)];
        return true;
      }
      closes := closes + 1;
      return false;
    }
  }

  class WSHub {
    var clients: set<WSClient>
    var inbox: seq<Message>

    constructor ()
      ensures Mirrors(map[], INITIAL)
    {
      clients, inbox := {}, [];
    }

    /** Hub and clients are as in `s`, where the clients go by numbers. */
    ghost predicate Mirrors(conns: map<Id, WSClient>, s: State)
      reads this, conns.Values
    {
      && inbox == s.inbox && conns.Keys == s.conns.Keys && s.clients <= conns.Keys
      && (forall i, j | i in conns && j in conns && conns[i] == conns[j] :: i == j)
      && (forall i | i in conns :: conns[i].Is(s.conns[i]))
      && (forall i | i in conns :: i in s.clients <==> conns[i] in clients)
      && clients <= conns.Values
    }

    method Broadcast(m: Message, ghost conns: map<Id, WSClient>, ghost s: State)
      requires Mirrors(conns, s) && Enabled(s, Publish(m))
      modifies this`inbox
      ensures Mirrors(conns, Next(s, Publish(m)))
      ensures inbox == if |old(inbox)| < CAPACITY then old(inbox) + [m] else old(inbox)
    {
      if |inbox| < CAPACITY {
        inbox := inbox + [m];
      }
    }

    method Register(c: WSClient, ghost id: Id, ghost conns: map<Id, WSClient>, ghost s: State)
      requires Mirrors(conns, s) && Enabled(s, Join(id)) && conns[id] == c
      modifies this`clients
      ensures Mirrors(conns, Next(s, Join(id))) && clients == old(clients) + {c}
    {
      clients := clients + {c};
    }

    method Unregister(c: WSClient, ghost id: Id, ghost conns: map<Id, WSClient>, ghost s: State)
      requires Mirrors(conns, s) && Enabled(s, Leave(id)) && conns[id] == c
      modifies this`clients, c
      ensures Mirrors(conns, Next(s, Leave(id))) && clients == old(clients) - {c}
    {
      if c in clients {
        clients := clients - {c};
        c.closes := c.closes + 1;
      }
    }

    /** One turn of the loop over the clients. */
    method VisitClient(c: WSClient, m: Message, ghost id: Id, ghost conns: map<Id, WSClient>, ghost s: State)
      requires Mirrors(conns, s) && Enabled(s, Visit(id)) && s.current == Some(m) && conns[id] == c
      modifies this`clients, c
      ensures Mirrors(conns, Next(s, Visit(id))) && clients <= old(clients)
    {
      var stays := c.Offer(m);
      if !stays {
        clients := clients - {c};
      }
    }

    method Take(ghost conns: map<Id, WSClient>, ghost s: State) returns (m: Message)
      requires Mirrors(conns, s) && Enabled(s, Receive)
      modifies this`inbox
      ensures Mirrors(conns, Next(s, Receive)) && Visiting(conns, Next(s, Receive), clients, m)
      ensures old(inbox) == [m] + inbox
    {
      m := inbox[0];
      inbox := inbox[1..];
    }

    /** Receives one broadcast and offers it to every client: the hub's steps, one by one. */
    method Deliver(ghost conns: map<Id, WSClient>, ghost s: State) returns (ghost ids: seq<Id>)
      requires Mirrors(conns, s) && Enabled(s, Receive)
      modifies this, conns.Values
      ensures Delivery(s, ids).Some? && Mirrors(conns, Delivery(s, ids).value)
    {
      var m := Take(conns, s);
      ghost var taken := Next(s, Receive);
      ghost var s' := taken;
      ids := [];
      var todo := clients;
      while todo != {}
        invariant Mirrors(conns, s') && VisitEach(taken, ids) == Some(s')
        invariant Visiting(conns, s', todo, m)
        decreases todo
      {
        var c :| c in todo;
        ghost var id: Id :| id in conns && conns[id] == c;
        VisitNext(conns, s', todo, m, id);
        VisitMore(taken, ids, s', id);
        VisitClient(c, m, id, conns, s');
        todo, s', ids := todo - {c}, Next(s', Visit(id)), ids + [id];
      }
      NoneLeft(conns, s', m);
    }

    lemma NoneLeft(conns: map<Id, WSClient>, s: State, m: Message)
      requires Visiting(conns, s, {}, m)
      ensures Enabled(s, Finish)
    {
    }

    /** The hub is in its loop over the clients and has `todo` still to visit. */
    ghost predicate Visiting(conns: map<Id, WSClient>, s: State, todo: set<WSClient>, m: Message) {
      && s.current == Some(m) && !s.stopped && !s.crashed && s.todo <= s.clients <= conns.Keys
      && (forall i | i in conns :: i in s.todo <==> conns[i] in todo)
      && todo <= conns.Values
    }

    lemma VisitNext(conns: map<Id, WSClient>, s: State, todo: set<WSClient>, m: Message, id: Id)
      requires Visiting(conns, s, todo, m) && id in conns && conns[id] in todo && id in s.conns
      requires forall i, j | i in conns && j in conns && conns[i] == conns[j] :: i == j
      ensures Enabled(s, Visit(id))
      ensures Visiting(conns, Next(s, Visit(id)), todo - {conns[id]}, m)
    {
    }

    /** `ctx.Done()`: every channel is closed, the map stays, the goroutine returns. */
    method Stop(ghost conns: map<Id, WSClient>, ghost s: State)
      requires Mirrors(conns, s) && Enabled(s, Action.Stop)
      modifies clients
      ensures Mirrors(conns, Next(s, Action.Stop))
    {
      var todo := clients;
      while todo != {}
        invariant todo <= clients
        invariant forall c | c in todo :: c.View() == old(c.View())
        invariant forall c | c in clients - todo :: c.View() == Close(old(c.View()))
        decreases todo
      {
        var c :| c in todo;
        todo := todo - {c};
        c.closes := c.closes + 1;
      }
    }
  }

  ghost predicate IsRun(ss: seq<State>, acts: seq<Action>) {
    && |ss| == |acts| + 1 && ss[0] == INITIAL
    && forall k | 0 <= k < |acts| :: Enabled(ss[k], acts[k]) && ss[k + 1] == Next(ss[k], acts[k])
  }

  ghost predicate Safe(s: State) {
    && s.todo <= s.clients <= s.joined <= s.conns.Keys
    && (s.current.None? ==> s.todo == {})
    && |s.inbox| <= CAPACITY
    && (forall id | id in s.conns ::
          s.conns[id].closes <= 1 && |s.conns[id].queue| <= CAPACITY
          && (id in s.clients && !s.stopped ==> s.conns[id].closes == 0)
          && (id !in s.joined ==> s.conns[id].closes == 0))
  }

  lemma SafeStep(s: State, a: Action)
    requires Safe(s) && Enabled(s, a)
    ensures Safe(Next(s, a))
  {
  }

  /** In every run no send channel is closed twice, no queue exceeds its capacity, and the channel
      the hub is about to send on is open. */
  lemma {:induction false} RunSafe(ss: seq<State>, acts: seq<Action>, k: nat)
    requires IsRun(ss, acts) && k < |ss|
    ensures Safe(ss[k])
    ensures k < |acts| && acts[k].Visit? ==> ss[k].conns[acts[k].id].closes == 0
  {
    if k == 0 {
    } else {
      RunSafe(ss, acts, k - 1);
      SafeStep(ss[k - 1], acts[k - 1]);
    }
  }

  // ----- Who is hit by a ping -----

  /** The step closes the client's channel. */
  predicate Closes(s: State, a: Action, id: Id) {
    && id in s.conns
    && match a
       case Visit(x) =>
         x == id && s.current.Some? && s.current.value.channel in s.conns[id].channels
         && |s.conns[id].queue| >= CAPACITY
       case Leave(x) => x == id && id in s.clients
       case Stop => id in s.clients
       case _ => false
  }

  lemma ClosesOne(s: State, a: Action, id: Id)
    requires Safe(s) && Enabled(s, a) && id in Next(s, a).conns
    ensures Next(s, a).conns[id].closes > 0 <==> (id in s.conns && s.conns[id].closes > 0) || Closes(s, a, id)
  {
  }

  lemma RunStep(ss: seq<State>, acts: seq<Action>, k: nat)
    requires IsRun(ss, acts) && k < |acts|
    ensures Enabled(ss[k], acts[k]) && ss[k + 1] == Next(ss[k], acts[k])
  {
  }

  /** Closed are exactly the channels some step has closed. */
  lemma {:induction false} ClosedIff(ss: seq<State>, acts: seq<Action>, k: nat, id: Id)
    requires IsRun(ss, acts) && k < |ss| && id in ss[k].conns
    ensures ss[k].conns[id].closes > 0 <==> exists j | 0 <= j < k :: Closes(ss[j], acts[j], id)
  {
    if k == 0 {
    } else {
      var p := k - 1;
      RunStep(ss, acts, p);
      RunSafe(ss, acts, p);
      ClosesOne(ss[p], acts[p], id);
      if id in ss[p].conns {
        ClosedIff(ss, acts, p, id);
      } else {
        NeverClosedBefore(ss, acts, p, id);
      }
    }
  }

  lemma {:induction false} NeverClosedBefore(ss: seq<State>, acts: seq<Action>, k: nat, id: Id)
    requires IsRun(ss, acts) && k < |ss| && id !in ss[k].conns
    ensures forall j | 0 <= j < k :: !Closes(ss[j], acts[j], id)
  {
    if k == 0 {
    } else {
      RunStep(ss, acts, k - 1);
      NeverClosedBefore(ss, acts, k - 1, id);
    }
  }

  lemma {:induction false} LeaversAreGone(ss: seq<State>, acts: seq<Action>, j: nat, k: nat, id: Id)
    requires IsRun(ss, acts) && j < k < |ss| && acts[j] == Leave(id)
    ensures id in ss[k].gone
    decreases k
  {
    RunStep(ss, acts, k - 1);
    if k == j + 1 {
    } else {
      LeaversAreGone(ss, acts, j, k - 1, id);
    }
  }

  /** A ping of a client brings the process down, by an answer sent on a closed channel, exactly if
      the hub has dropped that client before for its full queue, or has stopped with the client
      still registered. */
  lemma PingCrashesIff(ss: seq<State>, acts: seq<Action>, k: nat, id: Id)
    requires IsRun(ss, acts) && k < |acts| && acts[k] == Ping(id)
    ensures ss[k + 1].crashed <==> exists j | 0 <= j < k ::
      && Closes(ss[j], acts[j], id) && (acts[j] == Visit(id) || acts[j] == Stop)
  {
    RunStep(ss, acts, k);
    ClosedIff(ss, acts, k, id);
    forall j | 0 <= j < k && Closes(ss[j], acts[j], id) ensures acts[j] == Visit(id) || acts[j] == Stop {
      if acts[j] == Leave(id) { LeaversAreGone(ss, acts, j, k, id); }
    }
  }

  /** Nothing else does: a run has crashed exactly if its last step is such a ping. */
  lemma RunCrashesIff(ss: seq<State>, acts: seq<Action>, k: nat)
    requires IsRun(ss, acts) && k < |ss|
    ensures ss[k].crashed <==> k > 0 && acts[k - 1].Ping? && exists j | 0 <= j < k - 1 ::
      && Closes(ss[j], acts[j], acts[k - 1].id) && (acts[j] == Visit(acts[k - 1].id) || acts[j] == Stop)
  {
    if k == 0 {
    } else {
      RunStep(ss, acts, k - 1);
      if acts[k - 1].Ping? { PingCrashesIff(ss, acts, k - 1, acts[k - 1].id); }
    }
  }

  // ----- Runs that crash -----

  lemma RunExtends(ss: seq<State>, acts: seq<Action>, s: State, a: Action)
    requires IsRun(ss, acts) && s == ss[|ss| - 1] && Enabled(s, a)
    ensures IsRun(ss + [Next(s, a)], acts + [a])
  {
    var ss', acts' := ss + [Next(s, a)], acts + [a];
    forall k | 0 <= k < |acts'| ensures Enabled(ss'[k], acts'[k]) && ss'[k + 1] == Next(ss'[k], acts'[k]) {
      if k < |acts| {
        RunStep(ss, acts, k);
        assert ss'[k] == ss[k] && ss'[k + 1] == ss[k + 1] && acts'[k] == acts[k];
      }
    }
  }

  function Pongs(j: nat): (q: seq<Item>)
    ensures |q| == j
  {
    seq(j, i requires 0 <= i < j => Pong)
  }

  /** One registered client of channel "c", with `j` answers in its queue. */
  function Filled(j: nat): State {
    State(map[0 := Client(Pongs(j), [], 0, {"c"})], {0}, {}, {0}, [], None, {}, false, false)
  }

  lemma {:induction false} FillQueue(j: nat) returns (ss: seq<State>, acts: seq<Action>)
    requires j <= CAPACITY
    ensures IsRun(ss, acts) && ss[|ss| - 1] == Filled(j)
  {
    if j == 0 {
      var a, b := Connect(0, {"c"}), Join(0);
      ss, acts := [INITIAL], [];
      RunExtends(ss, acts, INITIAL, a);
      ss, acts := ss + [Next(INITIAL, a)], acts + [a];
      RunExtends(ss, acts, Next(INITIAL, a), b);
      ss, acts := ss + [Next(Next(INITIAL, a), b)], acts + [b];
      assert ss[|ss| - 1] == Filled(0);
    } else {
      ss, acts := FillQueue(j - 1);
      assert Pongs(j - 1) + [Pong] == Pongs(j);
      RunExtends(ss, acts, Filled(j - 1), Ping(0));
      ss, acts := ss + [Filled(j)], acts + [Ping(0)];
    }
  }

  /** A client whose queue is full is dropped at the next broadcast, and its next ping crashes. */
  lemma DroppedThenPing() returns (ss: seq<State>, acts: seq<Action>)
    ensures IsRun(ss, acts) && ss[|ss| - 1].crashed
    ensures |acts| > 1 && acts[|acts| - 1] == Ping(0) && acts[|acts| - 2] == Visit(0)
  {
    ss, acts := FillQueue(CAPACITY);
    var s, m := Filled(CAPACITY), Message("c", "");
    RunExtends(ss, acts, s, Publish(m));
    ss, acts, s := ss + [Next(s, Publish(m))], acts + [Publish(m)], Next(s, Publish(m));
    assert s.inbox == [m];
    RunExtends(ss, acts, s, Receive);
    ss, acts, s := ss + [Next(s, Receive)], acts + [Receive], Next(s, Receive);
    RunExtends(ss, acts, s, Visit(0));
    ss, acts, s := ss + [Next(s, Visit(0))], acts + [Visit(0)], Next(s, Visit(0));
    assert s.conns[0].closes == 1;
    RunExtends(ss, acts, s, Ping(0));
    ss, acts := ss + [Next(s, Ping(0))], acts + [Ping(0)];
  }

  /** So does the ping of a client that is registered when the hub stops. */
  lemma StoppedThenPing() returns (ss: seq<State>, acts: seq<Action>)
    ensures IsRun(ss, acts) && ss[|ss| - 1].crashed
    ensures |acts| > 1 && acts[|acts| - 1] == Ping(0) && acts[|acts| - 2] == Stop
  {
    ss, acts := FillQueue(0);
    var s := Filled(0);
    RunExtends(ss, acts, s, Stop);
    ss, acts, s := ss + [Next(s, Stop)], acts + [Stop], Next(s, Stop);
    RunExtends(ss, acts, s, Ping(0));
    ss, acts := ss + [Next(s, Ping(0))], acts + [Ping(0)];
  }

  // ----- What a client gets -----

  function DataOf(items: seq<Item>): seq<Message> {
    if items == [] then []
    else
      var n := |items| - 1;
      DataOf(items[..n]) + if items[n].Data? then [items[n].msg] else []
  }

  lemma {:induction false} DataAppend(a: seq<Item>, b: seq<Item>)
    ensures DataOf(a + b) == DataOf(a) + DataOf(b)
  {
    if b == [] {
      assert a + b == a;
    } else {
      var n := |b| - 1;
      DataAppend(a, b[..n]);
      assert (a + b)[..|a + b| - 1] == a + b[..n];
    }
  }

  /** Broadcasts delivered to the client's queue, drained or not. */
  function Got(s: State, id: Id): seq<Message> {
    if id in s.conns then DataIn(s.conns[id]) else []
  }

  /** The hub reaches the client with a broadcast it is subscribed to. */
  predicate Due(s: State, a: Action, id: Id) {
    a == Visit(id) && s.current.Some? && id in s.conns && s.current.value.channel in s.conns[id].channels
  }

  /** The broadcasts the client was reached with while subscribed, in order. */
  function Owed(ss: seq<State>, acts: seq<Action>, k: nat, id: Id): seq<Message>
    requires k <= |acts| && k <= |ss|
  {
    if k == 0 then []
    else Owed(ss, acts, k - 1, id) + if Due(ss[k - 1], acts[k - 1], id) then [ss[k - 1].current.value] else []
  }

  function DataIn(c: Client): seq<Message> { DataOf(c.taken + c.queue) }

  lemma QueuedMore(c: Client, x: Item)
    ensures DataIn(c.(queue := c.queue + [x])) == DataIn(c) + if x.Data? then [x.msg] else []
  {
    assert c.taken + (c.queue + [x]) == (c.taken + c.queue) + [x];
    DataAppend(c.taken + c.queue, [x]);
    assert DataOf([x]) == [] + if x.Data? then [x.msg] else [];
  }

  lemma Drained(c: Client, n: nat)
    requires n <= |c.queue|
    ensures DataIn(c.(queue := c.queue[n..], taken := c.taken + c.queue[..n])) == DataIn(c)
  {
    assert (c.taken + c.queue[..n]) + c.queue[n..] == c.taken + c.queue;
  }

  /** A step gives a client something only by reaching it with room in its queue. */
  predicate Gives(s: State, a: Action, id: Id)
    requires Enabled(s, a)
  {
    a == Visit(id) && s.current.value.channel in s.conns[id].channels && |s.conns[id].queue| < CAPACITY
  }

  lemma GotStep(s: State, a: Action, id: Id)
    requires Enabled(s, a)
    ensures Got(Next(s, a), id) == Got(s, id) + if Gives(s, a, id) then [s.current.value] else []
  {
    if id in s.conns {
      var c := s.conns[id];
      match a
      case Visit(_) => QueuedMore(c, Data(s.current.value));
      case Ping(_) => QueuedMore(c, Pong);
      case Drain(x, n) => if x == id { Drained(c, n); }
      case _ =>
    }
  }

  ghost predicate Delivered(s: State, owed: seq<Message>, id: Id) {
    && Got(s, id) <= owed
    && (id in s.clients ==> Got(s, id) == owed)
    && (id !in s.joined ==> owed == [])
  }

  lemma DeliveredStep(s: State, a: Action, owed: seq<Message>, id: Id)
    requires Safe(s) && Enabled(s, a) && Delivered(s, owed, id)
    ensures Delivered(Next(s, a), owed + if Due(s, a, id) then [s.current.value] else [], id)
  {
    GotStep(s, a, id);
    if Due(s, a, id) {
      assert id in s.clients;
    } else {
      assert !Gives(s, a, id);
      assert owed + [] == owed && Got(s, id) + [] == Got(s, id);
    }
  }

  /** A client that is still registered has been given, in order and without a gap, exactly the
      broadcasts the hub reached it with while it was subscribed to their channel; one that was
      dropped has been given a prefix of them. */
  lemma {:induction false} DeliveredExactly(ss: seq<State>, acts: seq<Action>, k: nat, id: Id)
    requires IsRun(ss, acts) && k < |ss|
    ensures Delivered(ss[k], Owed(ss, acts, k, id), id)
  {
    if k == 0 {
    } else {
      var p := k - 1;
      DeliveredExactly(ss, acts, p, id);
      RunSafe(ss, acts, p);
      RunStep(ss, acts, p);
      DeliveredStep(ss[p], acts[p], Owed(ss, acts, p, id), id);
    }
  }

  // ----- Every broadcast reaches every client once -----

  lemma {:induction false} StillToVisit(ss: seq<State>, acts: seq<Action>, i: nat, k: nat, id: Id)
    requires IsRun(ss, acts) && i < |acts| && acts[i] == Receive && i < k < |ss|
    requires forall p | i < p < k :: acts[p] != Finish
    ensures ss[k].current == Some(ss[i].inbox[0])
    ensures id in ss[k].todo <==> id in ss[i].clients && forall p | i < p < k :: acts[p] != Visit(id)
  {
    if k == i + 1 {
      assert ss[i + 1] == Next(ss[i], acts[i]);
    } else {
      StillToVisit(ss, acts, i, k - 1, id);
      var s, a := ss[k - 1], acts[k - 1];
      assert Enabled(s, a) && ss[k] == Next(s, a);
    }
  }

  /** Between taking a broadcast and finishing with it, the hub reaches every client registered
      when it was taken, exactly once, and with that broadcast. */
  lemma ReachedOnce(ss: seq<State>, acts: seq<Action>, i: nat, j: nat, id: Id)
    requires IsRun(ss, acts) && i < j < |acts| && acts[i] == Receive && acts[j] == Finish
    requires forall p | i < p < j :: acts[p] != Finish
    requires id in ss[i].clients
    ensures exists k | i < k < j ::
      && acts[k] == Visit(id) && ss[k].current == Some(ss[i].inbox[0])
      && forall q | i < q < j && acts[q] == Visit(id) :: q == k
  {
    StillToVisit(ss, acts, i, j, id);
    assert Enabled(ss[j], acts[j]);
    var k :| i < k < j && acts[k] == Visit(id);
    StillToVisit(ss, acts, i, k, id);
    forall q | i < q < j && acts[q] == Visit(id) ensures q == k {
      StillToVisit(ss, acts, i, q, id);
      assert Enabled(ss[q], acts[q]) && Enabled(ss[k], acts[k]);
    }
  }

  // ----- From publishing to the clients' queues -----

  /** What a step adds to the broadcasts the hub's queue has accepted. */
  function AcceptedBy(s: State, a: Action): seq<Message> {
    if a.Publish? && |s.inbox| < CAPACITY then [a.msg] else []
  }

  /** What a step that ends in `s'` adds to the broadcasts the hub has taken up. */
  function TakenBy(a: Action, s': State): seq<Message> {
    if a == Receive && s'.current.Some? then [s'.current.value] else []
  }

  /** The broadcasts the hub's queue has accepted: those published while it was not full. */
  function Accepted(ss: seq<State>, acts: seq<Action>, k: nat): seq<Message>
    requires k <= |acts| && k <= |ss|
  {
    if k == 0 then [] else Accepted(ss, acts, k - 1) + AcceptedBy(ss[k - 1], acts[k - 1])
  }

  /** The broadcasts the hub has taken up in the steps from `i` to `k`. */
  function Taken(ss: seq<State>, acts: seq<Action>, i: nat, k: nat): seq<Message>
    requires i <= k <= |acts| && k < |ss|
    decreases k
  {
    if i == k then [] else Taken(ss, acts, i, k - 1) + TakenBy(acts[k - 1], ss[k])
  }

  lemma LostStep(s: State, a: Action, taken: seq<Message>)
    requires Enabled(s, a)
    ensures (taken + TakenBy(a, Next(s, a))) + Next(s, a).inbox == (taken + s.inbox) + AcceptedBy(s, a)
  {
    match a
    case Receive => assert s.inbox == [s.inbox[0]] + s.inbox[1..];
    case _ =>
  }

  /** No accepted broadcast is lost, repeated or overtaken: those taken, then those still waiting,
      are exactly those accepted. */
  lemma {:induction false} NothingLost(ss: seq<State>, acts: seq<Action>, k: nat)
    requires IsRun(ss, acts) && k < |ss|
    ensures Taken(ss, acts, 0, k) + ss[k].inbox == Accepted(ss, acts, k)
  {
    if k == 0 {
    } else {
      var p := k - 1;
      NothingLost(ss, acts, p);
      RunStep(ss, acts, p);
      LostStep(ss[p], acts[p], Taken(ss, acts, 0, p));
    }
  }

  lemma {:induction false} TakenInTwo(ss: seq<State>, acts: seq<Action>, i: nat, k: nat)
    requires i <= k <= |acts| && k < |ss|
    ensures Taken(ss, acts, 0, k) == Taken(ss, acts, 0, i) + Taken(ss, acts, i, k)
    decreases k - i
  {
    if i == k {
    } else {
      TakenInTwo(ss, acts, i, k - 1);
    }
  }

  /** The messages on one of these channels. */
  function Select(ms: seq<Message>, channels: set<string>): seq<Message> {
    if ms == [] then []
    else
      var n := |ms| - 1;
      Select(ms[..n], channels) + if ms[n].channel in channels then [ms[n]] else []
  }

  lemma SelectMore(ms: seq<Message>, m: Message, channels: set<string>)
    ensures Select(ms + [m], channels) == Select(ms, channels) + if m.channel in channels then [m] else []
  {
    assert (ms + [m])[..|ms|] == ms;
  }

  /** The broadcast the hub has in hand and has still to bring to the client. */
  function Outstanding(s: State, id: Id, channels: set<string>): seq<Message> {
    if s.current.Some? && id in s.todo && s.current.value.channel in channels then [s.current.value] else []
  }

  ghost predicate Steady(ss: seq<State>, i: nat, k: nat, id: Id, channels: set<string>) {
    forall j | i < j <= k && j < |ss| :: id in ss[j].conns && ss[j].conns[id].channels == channels
  }

  /** What a step gives a client that is subscribed. */
  function DueBy(s: State, a: Action, id: Id): seq<Message> {
    if Due(s, a, id) then [s.current.value] else []
  }

  /** What is given and what is still to be given, against what is taken. */
  lemma OutstandingStep(s: State, a: Action, id: Id, channels: set<string>)
    requires Safe(s) && Enabled(s, a) && id in s.clients && s.conns[id].channels == channels
    ensures a == Receive ==>
      DueBy(s, a, id) == [] && Outstanding(s, id, channels) == []
      && Outstanding(Next(s, a), id, channels) == Select(TakenBy(a, Next(s, a)), channels)
    ensures a != Receive ==>
      TakenBy(a, Next(s, a)) == []
      && (if Next(s, a).current.None? || a == Visit(id)
          then DueBy(s, a, id) == Outstanding(s, id, channels) && Outstanding(Next(s, a), id, channels) == []
          else DueBy(s, a, id) == [] && Outstanding(Next(s, a), id, channels) == Outstanding(s, id, channels))
  {
    if a == Receive {
      var m := s.inbox[0];
      assert [] + [m] == [m];
      SelectMore([], m, channels);
    }
  }

  lemma {:induction false} SelectAppend(a: seq<Message>, b: seq<Message>, channels: set<string>)
    ensures Select(a + b, channels) == Select(a, channels) + Select(b, channels)
  {
    if b == [] {
      assert a + b == a;
    } else {
      var n := |b| - 1;
      SelectAppend(a, b[..n], channels);
      assert (a + b)[..|a| + n] == a + b[..n];
    }
  }

  lemma CaughtUpStep(s: State, a: Action, id: Id, channels: set<string>, owed: seq<Message>, taken: seq<Message>)
    requires Safe(s) && Enabled(s, a) && id in s.clients && s.conns[id].channels == channels
    requires owed + Outstanding(s, id, channels) == Select(taken, channels)
    ensures (owed + DueBy(s, a, id)) + Outstanding(Next(s, a), id, channels)
         == Select(taken + TakenBy(a, Next(s, a)), channels)
  {
    OutstandingStep(s, a, id, channels);
    SelectAppend(taken, TakenBy(a, Next(s, a)), channels);
    if a == Receive {
      assert owed + [] == owed;
    } else {
      assert taken + [] == taken;
    }
  }

  lemma {:induction false} CaughtUp(ss: seq<State>, acts: seq<Action>, i: nat, k: nat, id: Id, channels: set<string>)
    requires IsRun(ss, acts) && i < |acts| && acts[i] == Join(id) && i < k < |ss| && id in ss[k].clients
    requires Steady(ss, i, k, id, channels)
    ensures Owed(ss, acts, k, id) + Outstanding(ss[k], id, channels) == Select(Taken(ss, acts, i + 1, k), channels)
    decreases k
  {
    var p := k - 1;
    RunStep(ss, acts, p);
    if p == i {
      DeliveredExactly(ss, acts, i, id);
      assert Owed(ss, acts, k, id) == Owed(ss, acts, i, id) + [];
    } else {
      RunSafe(ss, acts, p);
      JoinedOnce(ss, acts, i, p, id);
      StillRegistered(ss[p], acts[p], id);
      CaughtUp(ss, acts, i, p, id, channels);
      CaughtUpStep(ss[p], acts[p], id, channels, Owed(ss, acts, p, id), Taken(ss, acts, i + 1, p));
    }
  }

  lemma StillRegistered(s: State, a: Action, id: Id)
    requires Enabled(s, a) && a != Join(id) && id in Next(s, a).clients
    ensures id in s.clients
  {
  }

  lemma {:induction false} JoinedOnce(ss: seq<State>, acts: seq<Action>, i: nat, k: nat, id: Id)
    requires IsRun(ss, acts) && i < k < |ss| && i < |acts| && acts[i] == Join(id)
    ensures id in ss[k].joined && (k < |acts| ==> acts[k] != Join(id))
    decreases k
  {
    RunStep(ss, acts, k - 1);
    if k - 1 == i {
    } else {
      JoinedOnce(ss, acts, i, k - 1, id);
    }
    if k < |acts| { RunStep(ss, acts, k); }
  }

  /** Whenever the hub is between two broadcasts, a client that is registered and has not changed
      its channels since it was has been given exactly the accepted broadcasts on its channels that
      the hub has taken up since: those accepted are, in order, those taken before it came, those
      taken since, and those still waiting. */
  lemma PublishedToQueued(ss: seq<State>, acts: seq<Action>, i: nat, k: nat, id: Id, channels: set<string>)
    requires IsRun(ss, acts) && i < |acts| && acts[i] == Join(id) && i < k < |ss| && id in ss[k].clients
    requires Steady(ss, i, k, id, channels) && ss[k].current.None?
    ensures Taken(ss, acts, 0, i + 1) + Taken(ss, acts, i + 1, k) + ss[k].inbox == Accepted(ss, acts, k)
    ensures Got(ss[k], id) == Select(Taken(ss, acts, i + 1, k), channels)
  {
    NothingLost(ss, acts, k);
    TakenInTwo(ss, acts, i + 1, k);
    CaughtUp(ss, acts, i, k, id, channels);
    DeliveredExactly(ss, acts, k, id);
  }

  /** Registered is a client exactly from its registration until a step closes its channel; the
      hub's stop closes it and leaves it in the map. */
  lemma {:induction false} RegisteredIff(ss: seq<State>, acts: seq<Action>, k: nat, id: Id)
    requires IsRun(ss, acts) && k < |ss|
    ensures id in ss[k].joined <==> exists i | 0 <= i < k :: acts[i] == Join(id)
    ensures id in ss[k].clients
       <==> id in ss[k].joined && forall j | 0 <= j < k && acts[j] != Stop :: !Closes(ss[j], acts[j], id)
  {
    if k == 0 {
    } else {
      var p := k - 1;
      RegisteredIff(ss, acts, p, id);
      RunStep(ss, acts, p);
      RunSafe(ss, acts, p);
      RegisteredStep(ss[p], acts[p], id);
      if acts[p] == Join(id) {
        ClosedIff(ss, acts, p, id);
      }
    }
  }

  lemma RegisteredStep(s: State, a: Action, id: Id)
    requires Safe(s) && Enabled(s, a)
    ensures id in Next(s, a).joined <==> id in s.joined || a == Join(id)
    ensures id in Next(s, a).clients <==> (id in s.clients || a == Join(id)) && (a == Stop || !Closes(s, a, id))
  {
  }

  /** The last word on whether the client wants the channel. */
  predicate Wants(acts: seq<Action>, k: nat, id: Id, channel: string)
    requires k <= |acts|
  {
    k > 0 &&
    match acts[k - 1]
    case Connect(x, channels) => if x == id then channel in channels else Wants(acts, k - 1, id, channel)
    case Subscribe(x, ch) => (x == id && ch == channel) || Wants(acts, k - 1, id, channel)
    case Unsubscribe(x, ch) => !(x == id && ch == channel) && Wants(acts, k - 1, id, channel)
    case _ => Wants(acts, k - 1, id, channel)
  }

  lemma {:induction false} SubscribedIff(ss: seq<State>, acts: seq<Action>, k: nat, id: Id, channel: string)
    requires IsRun(ss, acts) && k < |ss| && id in ss[k].conns
    ensures channel in ss[k].conns[id].channels <==> Wants(acts, k, id, channel)
  {
    RunStep0(ss, acts, k);
    var p := k - 1;
    RunStep(ss, acts, p);
    if id in ss[p].conns {
      SubscribedIff(ss, acts, p, id, channel);
    }
  }

  lemma RunStep0(ss: seq<State>, acts: seq<Action>, k: nat)
    requires IsRun(ss, acts) && k < |ss| && ss[k].conns != map[]
    ensures k > 0
  {
  }
}
