/** The calls of a D-Bus client: what is pending, and how every call and watch is settled. */
module DBusCalls {

  import opened Options

  datatype Outcome = Resolved(reply: string) | Failed(error: string) | Cancelled | Disconnected(problem: string)

  datatype Request = CallRequest(id: nat) | WatchRequest(id: nat, rule: string) | UnwatchRequest(rule: string)

  /** What happens to a client. A message carries a reply, an error, both or neither. */
  datatype Event =
    | Call
    | Watch(rule: string)
    | Unwatch(id: nat)
    | Subscribe(callback: bool)
    | Message(cookie: Option<nat>, reply: Option<string>, error: Option<string>)
    | Garbled
    | Close(problem: Option<string>)

  /** `settled` holds what the promise of each cookie was told, in order. */
  datatype Client = Client(open: bool, closed: string, lastCookie: nat, calls: set<nat>,
                           watches: map<nat, string>, settled: map<nat, seq<Outcome>>, sent: seq<Request>)

  const FRESH := Client(true, "", 1, {}, map[], map[], [])

  function Outcomes(settled: map<nat, seq<Outcome>>, id: nat): seq<Outcome> {
    if id in settled then settled[id] else []
  }

  function Settle(settled: map<nat, seq<Outcome>>, id: nat, o: Outcome): map<nat, seq<Outcome>> {
    settled[id := Outcomes(settled, id) + [o]]
  }

  /** Every pending call is told the same. */
  function SettleAll(settled: map<nat, seq<Outcome>>, calls: set<nat>, o: Outcome): map<nat, seq<Outcome>> {
    map id | id in settled.Keys + calls :: Outcomes(settled, id) + if id in calls then [o] else []
  }

  lemma SettleNone(settled: map<nat, seq<Outcome>>, o: Outcome)
    ensures SettleAll(settled, {}, o) == settled
  {
    assert forall id | id in settled :: settled[id] + [] == settled[id];
  }

  lemma SettleMore(settled: map<nat, seq<Outcome>>, calls: set<nat>, id: nat, o: Outcome)
    requires id !in calls
    ensures Settle(SettleAll(settled, calls, o), id, o) == SettleAll(settled, calls + {id}, o)
  {
    var a, b := Settle(SettleAll(settled, calls, o), id, o), SettleAll(settled, calls + {id}, o);
    assert Outcomes(settled, id) + [] == Outcomes(settled, id);
    forall i
      ensures i in a <==> i in b
      ensures i in a ==> a[i] == b[i]
    {
    }
  }

  /** A request gets the next cookie; it is pending if it could be sent, and otherwise fails at once. */
  function Ask(c: Client, request: Request): Client {
    var next := c.(lastCookie := c.lastCookie + 1);
    if c.open then next.(calls := c.calls + {c.lastCookie}, sent := c.sent + [request])
    else next.(settled := Settle(c.settled, c.lastCookie, Disconnected(c.closed)))
  }

  function ClosePerform(c: Client, problem: string): Client {
    c.(open := false, closed := problem, calls := {}, settled := SettleAll(c.settled, c.calls, Disconnected(problem)))
  }

  function Receive(c: Client, id: nat, o: Outcome): Client {
    if id in c.calls then c.(calls := c.calls - {id}, settled := Settle(c.settled, id, o)) else c
  }

  function Problem(problem: Option<string>): string {
    if problem.Some? && problem.value != "" then problem.value else "disconnected"
  }

  /** The channel listens for messages only while it is open. */
  function Next(c: Client, e: Event): Client {
    match e
    case Call => Ask(c, CallRequest(c.lastCookie))
    case Watch(m) => Ask(c, WatchRequest(c.lastCookie, m)).(watches := c.watches[c.lastCookie := m])
    case Unwatch(id) =>
      if id !in c.watches then c
      else
        var r := Receive(c, id, Cancelled);
        if c.open then r.(sent := c.sent + [UnwatchRequest(c.watches[id])]) else r
    case Subscribe(callback) => if callback then c.(lastCookie := c.lastCookie + 1) else c
    case Message(id, reply, error) =>
      if !c.open || id == None then c
      else if reply.Some? then Receive(c, id.value, Resolved(reply.value))
      else if error.Some? then Receive(c, id.value, Failed(error.value))
      else c
    case Garbled => if c.open then ClosePerform(c, "protocol-error") else c
    case Close(problem) => ClosePerform(c, Problem(problem))
  }

  function Run(events: seq<Event>): Client {
    if events == [] then FRESH else Next(Run(events[..|events| - 1]), events[|events| - 1])
  }

  // ----- What every event keeps

  /** Every cookie given out for a request is pending or was settled exactly once, and no other cookie is
      either; nothing is pending once the client is closed. */
  ghost predicate Inv(c: Client) {
    && (forall id | id in c.calls :: id < c.lastCookie && Outcomes(c.settled, id) == [])
    && (forall id | id in c.settled :: id < c.lastCookie && |c.settled[id]| == 1)
    && (forall id | id in c.watches :: id < c.lastCookie)
    && (!c.open ==> c.calls == {})
  }

  lemma NextKeepsInv(c: Client, e: Event)
    requires Inv(c)
    ensures Inv(Next(c, e))
  {
    var n := Next(c, e);
    forall id | id in n.settled
      ensures id < n.lastCookie && |n.settled[id]| == 1
    {
    }
  }

  lemma {:induction false} RunKeepsInv(events: seq<Event>)
    ensures Inv(Run(events))
  {
    if events != [] {
      RunKeepsInv(events[..|events| - 1]);
      NextKeepsInv(Run(events[..|events| - 1]), events[|events| - 1]);
    }
  }

  // ----- How a request is settled

  /** What an event tells the promise of a pending request. */
  function Tells(e: Event, id: nat, isWatch: bool): Option<Outcome> {
    match e
    case Message(i, reply, error) =>
      if i != Some(id) then None
      else if reply.Some? then Some(Resolved(reply.value))
      else if error.Some? then Some(Failed(error.value))
      else None
    case Unwatch(i) => if i == id && isWatch then Some(Cancelled) else None
    case Garbled => Some(Disconnected("protocol-error"))
    case Close(problem) => Some(Disconnected(Problem(problem)))
    case _ => None
  }

  /** The first event behind event `k` that tells the request something. */
  function Fate(events: seq<Event>, k: nat, id: nat, isWatch: bool): Option<Outcome> {
    if |events| <= k + 1 then None
    else
      var before := Fate(events[..|events| - 1], k, id, isWatch);
      if before.Some? then before else Tells(events[|events| - 1], id, isWatch)
  }

  lemma NextTells(c: Client, e: Event, id: nat)
    requires Inv(c) && id < c.lastCookie
    ensures id < Next(c, e).lastCookie && (id in c.watches <==> id in Next(c, e).watches)
    ensures id !in c.calls ==> id !in Next(c, e).calls && Outcomes(Next(c, e).settled, id) == Outcomes(c.settled, id)
    ensures id in c.calls ==>
      match Tells(e, id, id in c.watches)
      case None => id in Next(c, e).calls && Outcomes(Next(c, e).settled, id) == Outcomes(c.settled, id)
      case Some(o) => id !in Next(c, e).calls && Outcomes(Next(c, e).settled, id) == Outcomes(c.settled, id) + [o]
  {
  }

  ghost predicate IsRequest(e: Event) { e.Call? || e.Watch? }

  lemma NextAsks(c: Client, e: Event)
    requires Inv(c) && IsRequest(e)
    ensures var (n, id) := (Next(c, e), c.lastCookie);
      && n.lastCookie == id + 1 && (id in n.watches <==> e.Watch?)
      && (id in n.calls <==> c.open)
      && Outcomes(n.settled, id) == if c.open then [] else [Disconnected(c.closed)]
  {
  }

  /** The cookie of event `k`. */
  function Cookie(events: seq<Event>, k: nat): nat
    requires k < |events|
  {
    Run(events[..k]).lastCookie
  }

  /** A request made while the client is open is told the first thing that concerns it and nothing else; one
      made later is told at once why the client was closed. */
  lemma {:induction false} SettledByFate(events: seq<Event>, k: nat)
    requires k < |events| && IsRequest(events[k])
    ensures var (c, before, id) := (Run(events), Run(events[..k]), Cookie(events, k));
      && id < c.lastCookie && (id in c.watches <==> events[k].Watch?)
      && (!before.open ==> id !in c.calls && Outcomes(c.settled, id) == [Disconnected(before.closed)])
      && (before.open ==>
            match Fate(events, k, id, events[k].Watch?)
            case None => id in c.calls && Outcomes(c.settled, id) == []
            case Some(o) => id !in c.calls && Outcomes(c.settled, id) == [o])
  {
    hide Next, Inv, Tells, Outcomes;
    var less, last := events[..|events| - 1], events[|events| - 1];
    RunKeepsInv(less);
    if k == |events| - 1 {
      assert less == events[..k];
      NextAsks(Run(less), last);
    } else {
      assert less[..k] == events[..k];
      SettledByFate(less, k);
      NextTells(Run(less), last, Cookie(events, k));
    }
  }

  /** No two requests share a cookie, and none shares one with a subscription. */
  lemma {:induction false} CookiesDiffer(events: seq<Event>, j: nat, k: nat)
    requires j < k < |events| && (IsRequest(events[j]) || events[j] == Subscribe(true))
    ensures Cookie(events, j) < Cookie(events, k)
  {
    assert events[..k][..k - 1] == events[..k - 1] && events[..k][k - 1] == events[k - 1];
    if j < k - 1 {
      CookiesDiffer(events, j, k - 1);
    }
  }

  /** A reply or an error for a cookie that is not pending changes nothing. */
  lemma {:induction false} LateRepliesChangeNothing(events: seq<Event>, id: nat, reply: Option<string>, error: Option<string>)
    requires id !in Run(events).calls
    ensures Run(events + [Message(Some(id), reply, error)]) == Run(events)
  {
    var all := events + [Message(Some(id), reply, error)];
    assert all[..|all| - 1] == events;
  }

  /** Once closed, a client stays closed, and nothing is pending. */
  lemma {:induction false} ClosedForGood(events: seq<Event>, k: nat)
    requires k < |events| && (events[k].Close? || events[k].Garbled?)
    ensures !Run(events).open && Run(events).calls == {}
  {
    RunKeepsInv(events);
    if k < |events| - 1 {
      ClosedForGood(events[..|events| - 1], k);
    }
  }

  class DBusClient {
    var open: bool
    var closed: string
    var lastCookie: nat
    var calls: set<nat>
    ghost var watches: map<nat, string>
    ghost var settled: map<nat, seq<Outcome>>
    ghost var sent: seq<Request>

    ghost function State(): Client
      reads this
    {
      Client(open, closed, lastCookie, calls, watches, settled, sent)
    }

    constructor ()
      ensures State() == FRESH
    {
      open, closed, lastCookie, calls := true, "", 1, {};
      watches, settled, sent := map[], map[], [];
    }

    method Send(ghost request: Request) returns (ok: bool)
      modifies this`sent
      ensures ok == open && sent == if open then old(sent) + [request] else old(sent)
    {
      if open {
        sent := sent + [request];
      }
      return open;
    }

    ghost method Told(id: nat, o: Outcome)
      modifies this`settled
      ensures settled == Settle(old(settled), id, o)
    {
      settled := Settle(settled, id, o);
    }

    method CallMethod() returns (id: nat)
      modifies this
      ensures id == old(lastCookie) && State() == Next(old(State()), Call)
    {
      id := lastCookie;
      lastCookie := lastCookie + 1;
      var ok := Send(CallRequest(id));
      if ok {
        calls := calls + {id};
      } else {
        Told(id, Disconnected(closed));
      }
    }

    method StartWatch(rule: string) returns (id: nat)
      modifies this
      ensures id == old(lastCookie) && State() == Next(old(State()), Watch(rule))
    {
      id := lastCookie;
      lastCookie := lastCookie + 1;
      var ok := Send(WatchRequest(id, rule));
      if ok {
        calls := calls + {id};
      } else {
        Told(id, Disconnected(closed));
      }
      watches := watches[id := rule];
    }

    /** The remove of the promise of a watch. */
    method RemoveWatch(id: nat, rule: string)
      requires id in watches && watches[id] == rule
      modifies this
      ensures State() == Next(old(State()), Unwatch(id))
    {
      if id in calls {
        Told(id, Cancelled);
        calls := calls - {id};
      }
      var _ := Send(UnwatchRequest(rule));
    }

    method AddSubscriber(callback: bool)
      modifies this
      ensures State() == Next(old(State()), Subscribe(callback))
    {
      if callback {
        lastCookie := lastCookie + 1;
      }
    }

    method OnMessage(id: Option<nat>, reply: Option<string>, error: Option<string>)
      requires open
      modifies this
      ensures State() == Next(old(State()), Message(id, reply, error))
    {
      var known := id.Some? && id.value in calls;
      if reply.Some? {
        if known {
          Told(id.value, Resolved(reply.value));
          calls := calls - {id.value};
        }
      } else if error.Some? {
        if known {
          Told(id.value, Failed(error.value));
          calls := calls - {id.value};
        }
      }
    }

    /** Every outstanding call is rejected, one after the other. */
    method PerformClose(problem: Option<string>)
      modifies this
      ensures State() == ClosePerform(old(State()), Problem(problem))
    {
      hide SettleAll, Settle;
      closed := if problem.Some? && problem.value != "" then problem.value else "disconnected";
      open := false;
      var outstanding := calls;
      calls := {};
      var left := outstanding;
      ghost var o := Disconnected(closed);
      SettleNone(settled, o);
      assert outstanding - left == {};
      while left != {}
        invariant left <= outstanding
        invariant settled == SettleAll(old(settled), outstanding - left, o)
        decreases |left|
        modifies this`settled
      {
        var id :| id in left;
        Told(id, Disconnected(closed));
        SettleMore(old(settled), outstanding - left, id, o);
        assert outstanding - left + {id} == outstanding - (left - {id});
        left := left - {id};
      }
      assert outstanding - left == old(calls);
    }

    method OnClose(problem: Option<string>)
      modifies this
      ensures State() == Next(old(State()), Close(problem))
    {
      PerformClose(problem);
    }

    method OnGarbled()
      requires open
      modifies this
      ensures State() == Next(old(State()), Garbled)
    {
      PerformClose(Some("protocol-error"));
    }
  }
}
