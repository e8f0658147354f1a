/** `SynapRpcTransport`: who owns each connection it dials. Commands share one client; every push
    subscription has its own. */
module RpcTransport {
  import opened GoValues

  /** Clients are numbered in the order they are dialed. `opening` are those a subscribing call has
      dialed and not yet handed out or closed; `subs` belong to live subscriptions; `alive` are those
      whose connection works. */
  datatype Ledger = Ledger(
    next: nat,
    shared: Option<nat>,
    opening: set<nat>,
    subs: set<nat>,
    closed: set<nat>,
    alive: set<nat>)
  {
    function SharedSet(): set<nat> {
      if shared.Some? then {shared.value} else {}
    }

    function CloseShared(): Ledger {
      this.(shared := None, closed := closed + SharedSet(), alive := alive - SharedSet())
    }

    function Everything(): set<nat> {
      closed + SharedSet() + opening + subs
    }
  }

  /** - `Retire`: `ensureConnected` closes and forgets a shared client that has died
      - `Dial(ok)`: `ensureConnected` finds no shared client and dials one
      - `CloseAll`: `Close`
      - `PushDial(ok)`: the dial of `SubscribePush` or `WatchPush`
      - `PushAck(id, ok)`: the server's answer to its SUBSCRIBE or KV.WATCH
      - `Cancel(id)`: the returned closure, called any number of times
      - `Die(id)`: the network drops a connection */
  datatype Action = Retire | Dial(ok: bool) | CloseAll | PushDial(ok: bool) | PushAck(id: nat, ok: bool)
    | Cancel(id: nat) | Die(id: nat)

  function Act(l: Ledger, a: Action): Ledger {
    match a
    case Retire => if l.shared.Some? && l.shared.value in l.alive then l else l.CloseShared()
    case Dial(ok) =>
      if l.shared.Some? || !ok then l
      else l.(shared := Some(l.next), next := l.next + 1, alive := l.alive + {l.next})
    case CloseAll => l.CloseShared()
    case PushDial(ok) =>
      if ok then l.(opening := l.opening + {l.next}, next := l.next + 1, alive := l.alive + {l.next}) else l
    case PushAck(id, ok) =>
      if id !in l.opening then l
      else if ok then l.(opening := l.opening - {id}, subs := l.subs + {id})
      else l.(opening := l.opening - {id}, closed := l.closed + {id}, alive := l.alive - {id})
    case Cancel(id) =>
      if id !in l.subs then l
      else l.(subs := l.subs - {id}, closed := l.closed + {id}, alive := l.alive - {id})
    case Die(id) => l.(alive := l.alive - {id})
  }

  const NOTHING := Ledger(0, None, {}, {}, {}, {})

  function Run(actions: seq<Action>): Ledger {
    if actions == [] then NOTHING else Act(Run(actions[..|actions| - 1]), actions[|actions| - 1])
  }

  /** Every client ever dialed has exactly one place: closed, shared, being own, or with one live
      subscription; and only clients not closed are alive. */
  ghost predicate Owned(l: Ledger) {
    && (forall id: nat :: id in l.Everything() <==> id < l.next)
    && l.closed !! l.SharedSet() !! l.opening !! l.subs
    && l.alive !! l.closed && l.alive <= l.Everything()
  }

  lemma ActKeepsOwned(l: Ledger, a: Action)
    requires Owned(l)
    ensures Owned(Act(l, a))
  {
    var l' := Act(l, a);
    assert l'.Everything() == l.Everything() + if l'.next == l.next then {} else {l.next};
  }

  /** Connection ownership over every run: nothing is leaked, shared twice or closed behind a
      subscription's back. */
  lemma {:induction false} RunKeepsOwned(actions: seq<Action>)
    ensures Owned(Run(actions))
  {
    if actions != [] {
      RunKeepsOwned(actions[..|actions| - 1]);
      ActKeepsOwned(Run(actions[..|actions| - 1]), actions[|actions| - 1]);
    }
  }

  /** The shared client is never exchanged for another in one step: it is closed and forgotten, and a new one
      is only dialed when there is none. No action touches the connection of a subscription except its own
      cancel or its connection dying. */
  lemma ReplacedIsClosedFirst(l: Ledger, a: Action)
    requires Owned(l)
    ensures var l' := Act(l, a);
      && (l.shared.Some? && l'.shared != l.shared ==> l'.shared.None? && l.shared.value in l'.closed)
      && (l'.shared.Some? && l'.shared != l.shared ==>
            l.shared.None? && l'.shared == Some(l.next) && l'.shared.value in l'.alive)
      && l.closed <= l'.closed
      && (forall id | id in l.subs && a != Cancel(id) ::
            id in l'.subs && (id in l.alive && a != Die(id) ==> id in l'.alive))
  {
  }

  /** What becomes of a client dialed for a subscription. A refusal closes it, an acknowledgement hands it out,
      a cancel closes it; nothing else books or closes a subscription's client. */
  lemma PushOutcome(l: Ledger, id: nat, ok: bool)
    requires Owned(l) && id in l.opening
    ensures var l' := Act(l, PushAck(id, ok));
      if ok then id in l'.subs && id !in l'.closed && (id in l'.alive <==> id in l.alive) && l'.subs == l.subs + {id}
      else id in l'.closed && id !in l'.subs && id !in l'.alive && l'.subs == l.subs
  {
  }

  lemma PushCancelled(l: Ledger, id: nat)
    requires Owned(l) && id in l.subs
    ensures var l' := Act(l, Cancel(id));
      id in l'.closed && id !in l'.alive && l'.subs == l.subs - {id} && l'.shared == l.shared && l'.opening == l.opening
  {
  }

  /** A dial that fails opens nothing; one that succeeds opens one client, new and working. */
  lemma PushDialed(l: Ledger, ok: bool)
    requires Owned(l)
    ensures var l' := Act(l, PushDial(ok));
      && l'.subs == l.subs && l'.shared == l.shared && l'.closed == l.closed
      && l'.opening == l.opening + (if ok then {l.next} else {})
      && l'.alive == l.alive + (if ok then {l.next} else {}) && (ok ==> l.next !in l.Everything())
  {
  }

  /** Subscriptions begin with an acknowledgement and end with a cancel. */
  lemma SubscriptionsChangeBy(l: Ledger, a: Action)
    requires Owned(l)
    ensures forall id | id in Act(l, a).subs && id !in l.subs :: a == PushAck(id, true)
    ensures forall id | id in l.subs && id !in Act(l, a).subs :: a == Cancel(id)
  {
  }

  /** What `Close` and a dying connection do. */
  lemma OthersEffect(l: Ledger, id: nat)
    requires Owned(l)
    ensures var c := Act(l, CloseAll);
      && c.shared.None? && c.subs == l.subs
      && (l.shared.Some? ==> l.shared.value in c.closed && l.shared.value !in c.alive)
    ensures Act(l, Die(id)) == l.(alive := l.alive - {id})
    ensures var r := Act(l, Retire);
      if l.shared.Some? && l.shared.value in l.alive then r == l
      else r.shared.None? && r.subs == l.subs && (l.shared.Some? ==> l.shared.value in r.closed)
    ensures l.shared.None? ==> Act(l, Dial(true)).shared == Some(l.next) && Act(l, Dial(false)) == l
  {
  }

  /** The clients that have been shared at some time in a run. */
  function EverShared(actions: seq<Action>): set<nat> {
    if actions == [] then {} else EverShared(actions[..|actions| - 1]) + Run(actions).SharedSet()
  }

  /** Over every run: every client that was ever shared has been closed, but for the one shared now. Before a
      dial there is none, so all have. */
  lemma {:induction false} FormerSharedAreClosed(actions: seq<Action>)
    ensures EverShared(actions) <= Run(actions).closed + Run(actions).SharedSet()
  {
    if actions != [] {
      var earlier := actions[..|actions| - 1];
      RunKeepsOwned(earlier);
      FormerSharedAreClosed(earlier);
      ReplacedIsClosedFirst(Run(earlier), actions[|actions| - 1]);
    }
  }

  /** Cancelling every subscription and closing the transport leaves no connection open. */
  lemma {:induction false} EverythingCanBeClosed(l: Ledger, ids: seq<nat>)
    requires Owned(l) && l.opening == {} && forall id | id in l.subs :: id in ids
    ensures var l' := After(l, ids); Owned(l') && l'.closed == l'.Everything() && l'.alive == {}
    decreases |ids|
  {
    if ids == [] {
      ActKeepsOwned(l, CloseAll);
    } else {
      ActKeepsOwned(l, Cancel(ids[0]));
      EverythingCanBeClosed(Act(l, Cancel(ids[0])), ids[1..]);
    }
  }

  function After(l: Ledger, ids: seq<nat>): Ledger
    decreases |ids|
  {
    if ids == [] then Act(l, CloseAll) else After(Act(l, Cancel(ids[0])), ids[1..])
  }

  // ---------------------------------------------------------------- the implementation

  /** A command issued on a client, and whether the client was open. */
  datatype Issued = Issued(cmd: string, args: seq<string>, open: bool)

  class Client {
    ghost const id: nat
    var open: bool
    var works: bool
    ghost var calls: seq<Issued>

    constructor (ghost id: nat)
      ensures this.id == id && open && works && calls == []
    {
      this.id, open, works, calls := id, true, true, [];
    }

    method Close()
      modifies this`open, this`works
      ensures !open && !works
    {
      open, works := false, false;
    }

    /** A call; what comes of it is the network's and the server's. */
    method Call(cmd: string, args: seq<string>)
      modifies this`calls
      ensures calls == old(calls) + [Issued(cmd, args, open)]
    {
      calls := calls + [Issued(cmd, args, open)];
    }
  }

  class Transport {
    var client: Client?
    ghost var ledger: Ledger

    ghost predicate Valid()
      reads this, client
    {
      && Owned(ledger)
      && (client == null <==> ledger.shared.None?)
      && (client != null ==>
            client.id == ledger.shared.value && client.open && (client.works <==> client.id in ledger.alive))
    }

    constructor ()
      ensures Valid() && ledger == NOTHING
    {
      client, ledger := null, NOTHING;
    }

    /** `ensureConnected`; the network decides whether a dial succeeds. */
    method Connected(dialed: bool) returns (c: Client?)
      requires Valid()
      modifies this, client
      ensures Valid()
      ensures ledger == if old(client != null && client.works) then old(ledger)
                        else Act(Act(old(ledger), Retire), Dial(dialed))
      ensures c == client && (c != null ==> c.works && c.open)
      ensures if old(client != null && client.works) then c == old(client) else c != null <==> dialed
      ensures old(client) != null && client != old(client) ==> !old(client).open
      ensures client != null && client != old(client) ==> fresh(client)
    {
      if client != null && client.works {
        return client;
      }
      ActKeepsOwned(ledger, Retire);
      ledger := Act(ledger, Retire);
      if client != null {
        client.Close();
        client := null;
      }
      ActKeepsOwned(ledger, Dial(dialed));
      ledger := Act(ledger, Dial(dialed));
      if !dialed {
        return null;
      }
      client := new Client(ledger.next - 1);
      return client;
    }

    method Close()
      requires Valid()
      modifies this, client
      ensures Valid() && ledger == Act(old(ledger), CloseAll) && client == null
      ensures old(client) != null ==> !old(client).open
    {
      ActKeepsOwned(ledger, CloseAll);
      ledger := Act(ledger, CloseAll);
      if client != null {
        client.Close();
        client := null;
      }
    }

    /** `SubscribePush` and `WatchPush`: a client of their own, closed again when the server refuses.
        The shared client is not involved. `own` is the client dialed, whatever became of it. */
    method OpenPush(cmd: string, args: seq<string>, dialed: bool, acknowledged: bool)
      returns (c: Client?, ghost own: Client?)
      requires Valid()
      modifies this`ledger
      ensures Valid() && client == old(client)
      ensures !dialed ==> ledger == Act(old(ledger), PushDial(false))
      ensures dialed ==> ledger == Act(Act(old(ledger), PushDial(true)), PushAck(old(ledger).next, acknowledged))
      ensures (c != null <==> dialed && acknowledged)
      ensures c != null ==> c == own && c.open && c.works && c.id in ledger.subs
      ensures own != null <==> dialed
      ensures own != null ==> fresh(own) && own.calls == [Issued(cmd, args, true)]
      ensures c == null && own != null ==>
        !own.open && own.id in ledger.closed && own.id !in ledger.subs && own.id !in ledger.alive
      ensures ledger.subs == old(ledger.subs) + if c != null then {c.id} else {}
    {
      if !dialed {
        return null, null;
      }
      ghost var id := ledger.next;
      ActKeepsOwned(ledger, PushDial(true));
      ledger := Act(ledger, PushDial(true));
      c := new Client(id);
      own := c;
      c.Call(cmd, args);
      ActKeepsOwned(ledger, PushAck(id, acknowledged));
      ledger := Act(ledger, PushAck(id, acknowledged));
      if !acknowledged {
        c.Close();
        return null, own;
      }
    }

    /** The cancel a subscribing call returned; it may be called again. That of a watch first issues KV.UNWATCH
        on the same client, if the server gave a subscriber id, and closes it whatever comes of that. */
    method CancelPush(c: Client, watch: bool, subscriberID: string)
      requires Valid() && c.id in ledger.subs + ledger.closed
      modifies this`ledger, c
      ensures Valid() && client == old(client) && !c.open
      ensures ledger == Act(old(ledger), Cancel(c.id))
      ensures c.calls == old(c.calls)
        + if watch && subscriberID != "" then [Issued("KV.UNWATCH", [subscriberID], old(c.open))] else []
    {
      if watch && subscriberID != "" {
        c.Call("KV.UNWATCH", [subscriberID]);
      }
      ActKeepsOwned(ledger, Cancel(c.id));
      ledger := Act(ledger, Cancel(c.id));
      c.Close();
    }
  }
}
