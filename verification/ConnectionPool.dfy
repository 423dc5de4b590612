// The pool of agent connections: who is in it, and what has become of the
// connections that are not.
module ConnectionPools {
  import opened Common

  class AgentConnection {
    var lastPing: int
    var isActive: bool
    // Whether the connection's context has been canceled.
    var canceled: bool

    constructor (now: int)
      ensures lastPing == now && isActive && !canceled
    {
      lastPing, isActive, canceled := now, true, false;
    }

    method Cancel()
      modifies this`canceled
      ensures canceled
    {
      canceled := true;
    }
  }

  // ----- Who is in the pool, as values -----

  // The time of the last ping of each agent in the pool.
  type Pings = map<string, int>

  datatype Event =
    | Add(agent: string, now: int)
    | Remove(agent: string)
    | Ping(agent: string, now: int)
    | Check(now: int)
    | StopAll

  function Healthy(p: Pings, timeout: int, now: int): Pings {
    map a | a in p && now - p[a] <= timeout :: p[a]
  }

  function Next(p: Pings, e: Event, timeout: int): Pings {
    match e
    case Add(a, now) => p[a := now]
    case Remove(a) => p - {a}
    case Ping(a, now) => if a in p then p[a := now] else p
    case Check(now) => Healthy(p, timeout, now)
    case StopAll => map[]
  }

  function After(p: Pings, events: seq<Event>, timeout: int): Pings
    decreases |events|
  {
    if events == [] then p else After(Next(p, events[0], timeout), events[1..], timeout)
  }

  // Whether every health check finds a ping no older than the timeout, if the
  // agent was last heard of at the given time.
  predicate HeardInTime(events: seq<Event>, agent: string, last: int, timeout: int)
    decreases |events|
  {
    if events == [] then true
    else
      match events[0]
      case Ping(a, now) => HeardInTime(events[1..], agent, if a == agent then now else last, timeout)
      case Check(now) => now - last <= timeout && HeardInTime(events[1..], agent, last, timeout)
      case _ => HeardInTime(events[1..], agent, last, timeout)
  }

  predicate LeavesAlone(e: Event, agent: string) {
    match e
    case Add(a, _) => a != agent
    case Remove(a) => a != agent
    case StopAll => false
    case _ => true
  }

  // Over any run that neither adds nor removes the agent, it stays in the pool
  // exactly if it was there and every health check heard of it in time. A ping
  // after that does not bring it back.
  lemma {:induction false} StaysConnectedExactly(p: Pings, events: seq<Event>, agent: string, timeout: int)
    requires forall e :: e in events ==> LeavesAlone(e, agent)
    ensures agent in After(p, events, timeout) <==> agent in p && HeardInTime(events, agent, p[agent], timeout)
    decreases |events|
  {
    if events != [] {
      assert LeavesAlone(events[0], agent);
      StaysConnectedExactly(Next(p, events[0], timeout), events[1..], agent, timeout);
    }
  }

  // ----- The pool itself -----

  class ConnectionPool {
    var connections: map<string, AgentConnection>
    const connectionTimeout: int
    // Every connection the pool has ever made.
    ghost var made: set<AgentConnection>

    // Every connection outside the pool has been canceled; every pooled one is
    // active and has not; and no two agents share a connection.
    ghost predicate Valid()
      reads this, made
    {
      ValidBut({})
    }

    // The same, except that the connections of some agents may be canceled.
    ghost predicate ValidBut(agents: set<string>)
      reads this, made
    {
      && connections.Values <= made
      && (forall c :: c in made && c !in connections.Values ==> c.canceled)
      && (forall a :: a in connections ==> connections[a].isActive && (a in agents || !connections[a].canceled))
      && (forall a, b :: a in connections && b in connections && a != b ==> connections[a] != connections[b])
    }

    ghost function Contents(): Pings
      requires connections.Values <= made
      reads this, made
    {
      map a | a in connections :: connections[a].lastPing
    }

    constructor (timeout: int)
      ensures Valid() && Contents() == map[] && connectionTimeout == timeout && made == {}
    {
      connections, connectionTimeout, made := map[], timeout, {};
    }

    method AddConnection(agentID: string, now: int)
      requires Valid()
      modifies this, made
      ensures Valid() && fresh(made - old(made)) && old(made) < made
      ensures Contents() == Next(old(Contents()), Add(agentID, now), connectionTimeout)
      ensures agentID in connections && connections == old(connections)[agentID := connections[agentID]]
      ensures agentID in old(connections) ==> old(connections[agentID]).canceled
      ensures connections[agentID] !in old(made) && connections[agentID].lastPing == now
      ensures forall a :: a in old(connections) && a != agentID ==>
                connections[a].lastPing == old(connections[a].lastPing)
    {
      if agentID in connections {
        connections[agentID].Cancel();
      }
      var conn := new AgentConnection(now);
      made := made + {conn};
      ghost var before := connections;
      connections := connections[agentID := conn];
      assert connections[agentID] == conn && agentID in connections;
      forall c | c in made && c !in connections.Values ensures c.canceled {
        SetOne(before, agentID, conn, c);
      }
    }

    method RemoveConnection(agentID: string)
      requires ValidBut({agentID})
      modifies this, made
      ensures Valid() && made == old(made)
      ensures Contents() == Next(old(Contents()), Remove(agentID), connectionTimeout)
      ensures connections == old(connections) - {agentID}
      ensures agentID in old(connections) ==> old(connections[agentID]).canceled
      ensures forall a :: a in connections ==> connections[a].lastPing == old(connections[a].lastPing)
    {
      if agentID in connections {
        connections[agentID].Cancel();
        Drop(agentID);
      }
    }

    method Drop(agentID: string)
      requires connections.Values <= made && agentID in connections && connections[agentID].canceled
      requires forall c :: c in made && c !in connections.Values ==> c.canceled
      modifies this`connections
      ensures connections == old(connections) - {agentID} && connections.Values <= made
      ensures forall c :: c in made && c !in connections.Values ==> c.canceled
    {
      ghost var before := connections;
      connections := connections - {agentID};
      forall c | c in made && c !in connections.Values ensures c.canceled {
        RemoveOne(before, agentID, c);
      }
      forall c | c in connections.Values ensures c in made {
        RemoveOne(before, agentID, c);
      }
    }

    // The check for activity never hides a pooled connection.
    method GetConnection(agentID: string) returns (conn: Option<AgentConnection>)
      requires Valid()
      ensures conn == if agentID in connections then Some(connections[agentID]) else None
    {
      if agentID in connections && connections[agentID].isActive {
        return Some(connections[agentID]);
      }
      conn := None;
    }

    method UpdateLastPing(agentID: string, now: int)
      requires Valid()
      modifies made
      ensures Valid()
      ensures Contents() == Next(old(Contents()), Ping(agentID, now), connectionTimeout)
      ensures forall a :: a in connections ==>
                connections[a].lastPing == if a == agentID then now else old(connections[a].lastPing)
    {
      if agentID in connections {
        connections[agentID].lastPing := now;
        connections[agentID].isActive := true;
      }
    }

    method GetActiveConnections() returns (activeConns: map<string, AgentConnection>)
      requires Valid()
      ensures activeConns == connections
    {
      activeConns := map[];
      var todo := connections.Keys;
      while todo != {}
        invariant todo <= connections.Keys
        invariant activeConns == map a | a in connections && a !in todo :: connections[a]
        decreases |todo|
      {
        var a :| a in todo;
        todo := todo - {a};
        if connections[a].isActive {
          activeConns := activeConns[a := connections[a]];
        }
      }
    }

    // The first pass marks and lists the silent agents, the second cancels and
    // drops those listed.
    method CheckConnectionHealth(now: int)
      requires Valid()
      modifies this, made
      ensures Valid() && made == old(made)
      ensures Contents() == Next(old(Contents()), Check(now), connectionTimeout)
      ensures connections == map a | a in old(connections) && a in Contents() :: old(connections)[a]
      ensures forall a :: a in connections <==>
                a in old(connections) && now - old(connections[a].lastPing) <= connectionTimeout
      ensures forall a :: a in connections ==> connections[a].lastPing == old(connections[a].lastPing)
    {
      var disconnected := MarkSilent(now);
      DropListed(disconnected);
    }

    method MarkSilent(now: int) returns (disconnected: seq<string>)
      requires Valid()
      modifies made
      ensures forall c :: c in made ==> c.lastPing == old(c.lastPing) && c.canceled == old(c.canceled)
      ensures forall a :: a in disconnected <==> a in connections && now - connections[a].lastPing > connectionTimeout
      ensures forall a :: a in connections ==> connections[a].isActive == (a !in disconnected)
    {
      disconnected := [];
      var todo := connections.Keys;
      while todo != {}
        invariant todo <= connections.Keys
        invariant forall c :: c in made ==> c.lastPing == old(c.lastPing) && c.canceled == old(c.canceled)
        invariant forall a :: a in disconnected <==>
            a in connections && a !in todo && now - connections[a].lastPing > connectionTimeout
        invariant forall a :: a in connections ==> connections[a].isActive == (a !in disconnected)
        decreases |todo|
      {
        var a :| a in todo;
        todo := todo - {a};
        if now - connections[a].lastPing > connectionTimeout {
          connections[a].isActive := false;
          disconnected := disconnected + [a];
        }
      }
    }

    method DropListed(disconnected: seq<string>)
      requires connections.Values <= made
      requires forall c :: c in made && c !in connections.Values ==> c.canceled
      requires forall a :: a in connections ==>
                 connections[a].isActive == (a !in disconnected) && !connections[a].canceled
      requires forall a, b :: a in connections && b in connections && a != b ==> connections[a] != connections[b]
      modifies this, made
      ensures Valid() && made == old(made)
      ensures connections == old(connections) - Elements(disconnected)
      ensures forall c :: c in made ==> c.lastPing == old(c.lastPing)
    {
      for i := 0 to |disconnected|
        invariant made == old(made) && connections.Values <= made
        invariant connections == old(connections) - Elements(disconnected[..i])
        invariant forall c :: c in made ==> c.lastPing == old(c.lastPing) && c.isActive == old(c.isActive)
        invariant forall c :: c in made && c !in connections.Values ==> c.canceled
        invariant forall a :: a in connections ==> !connections[a].canceled
      {
        var a := disconnected[i];
        assert disconnected[..i + 1][..i] == disconnected[..i];
        ElementsSnoc(disconnected[..i + 1], i);
        if a in connections {
          connections[a].Cancel();
          Drop(a);
        }
      }
      assert disconnected[..|disconnected|] == disconnected;
    }

    // Every context is canceled before the pool is emptied.
    method Stop()
      requires Valid()
      modifies this, made
      ensures Valid() && made == old(made)
      ensures connections == map[] && Contents() == Next(old(Contents()), StopAll, connectionTimeout)
      ensures forall c :: c in made ==> c.canceled
    {
      var todo := connections.Keys;
      while todo != {}
        invariant todo <= connections.Keys && connections == old(connections) && made == old(made)
        invariant connections.Values <= made
        invariant forall c :: c in made && c !in connections.Values ==> c.canceled
        invariant forall a :: a in connections && a !in todo ==> connections[a].canceled
        decreases |todo|
      {
        var a :| a in todo;
        todo := todo - {a};
        connections[a].Cancel();
      }
      connections := map[];
    }

    // The controller's request to disconnect an agent.
    method DisconnectAgent(agentID: string) returns (ok: bool)
      requires Valid()
      modifies this, made
      ensures Valid() && made == old(made)
      ensures ok <==> agentID in old(connections)
      ensures connections == old(connections) - {agentID}
      ensures Contents() == Next(old(Contents()), Remove(agentID), connectionTimeout)
      ensures ok ==> old(connections[agentID]).canceled
    {
      var conn := GetConnection(agentID);
      if conn.None? {
        return false;
      }
      conn.value.Cancel();
      RemoveConnection(agentID);
      ok := true;
    }
  }

  // Who is in the range after one entry is set, and after one is removed.
  lemma SetOne<T>(m: map<string, T>, k: string, v: T, w: T)
    ensures w in m[k := v].Values ==> w in m.Values || w == v
    ensures w in m.Values ==> w in m[k := v].Values || (k in m && m[k] == w)
  {
    if w in m.Values {
      var a :| a in m && m[a] == w;
      assert a != k ==> m[k := v][a] == w;
    }
  }

  lemma RemoveOne<T>(m: map<string, T>, k: string, w: T)
    ensures w in (m - {k}).Values ==> w in m.Values
    ensures w in m.Values ==> w in (m - {k}).Values || (k in m && m[k] == w)
  {
    if w in m.Values {
      var a :| a in m && m[a] == w;
      assert a != k ==> a in m - {k} && (m - {k})[a] == w;
    }
  }

}
