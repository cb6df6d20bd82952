/**
 * The registry of open websocket connections, keyed by client id, updated
 * in place.  Whether a send to a socket succeeds is an oracle `alive`; the
 * lock around the registry is left out (operations run one at a time).
 */
module Connections {
  import opened Wrappers

  type ClientId = string

  /** An accepted websocket; `handle` only tells sockets apart. */
  datatype Socket = Socket(handle: nat)

  /** A broadcast is addressed to every client except the excluded one (if any). */
  predicate Addressed(id: ClientId, exclude: Option<ClientId>) {
    exclude != Some(id)
  }

  /** The registry a broadcast leaves: every addressed client whose send failed is gone. */
  function AfterBroadcast(connections: map<ClientId, Socket>, exclude: Option<ClientId>, alive: Socket -> bool): (r: map<ClientId, Socket>)
    ensures forall id :: id in r <==> id in connections && (!Addressed(id, exclude) || alive(connections[id]))
    ensures forall id :: id in r ==> r[id] == connections[id]
  {
    map id | id in connections && (!Addressed(id, exclude) || alive(connections[id])) :: connections[id]
  }

  /** The clients a broadcast reaches. */
  function Reached(connections: map<ClientId, Socket>, exclude: Option<ClientId>, alive: Socket -> bool): (r: set<ClientId>)
    ensures forall id :: id in r <==> id in connections && Addressed(id, exclude) && alive(connections[id])
  {
    set id | id in connections && Addressed(id, exclude) && alive(connections[id])
  }

  class ConnectionManager {
    var activeConnections: map<ClientId, Socket>

    constructor ()
      ensures activeConnections == map[]
    {
      activeConnections := map[];
    }

    /** Accepts the socket and registers it under the id (a re-used id is re-bound). */
    method Connect(socket: Socket, clientId: ClientId)
      modifies this
      ensures activeConnections == old(activeConnections)[clientId := socket]
    {
      activeConnections := activeConnections[clientId := socket];
    }

    /** Removes the id if registered; otherwise nothing changes. */
    method Disconnect(clientId: ClientId)
      modifies this
      ensures activeConnections == old(activeConnections) - {clientId}
      ensures clientId !in old(activeConnections) ==> activeConnections == old(activeConnections)
    {
      if clientId in activeConnections {
        activeConnections := activeConnections - {clientId};
      }
    }

    /** Sends to one registered client; a failed send disconnects it. Unregistered ids are skipped. */
    method SendPersonalMessage<M>(message: M, clientId: ClientId, alive: Socket -> bool) returns (delivered: bool)
      modifies this
      ensures delivered <==> clientId in old(activeConnections) && alive(old(activeConnections)[clientId])
      ensures activeConnections ==
        if clientId in old(activeConnections) && !alive(old(activeConnections)[clientId])
        then old(activeConnections) - {clientId} else old(activeConnections)
    {
      delivered := false;
      if clientId in activeConnections {
        if alive(activeConnections[clientId]) {
          delivered := true;
        } else {
          Disconnect(clientId);
        }
      }
    }

    /**
     * Sends to every registered client but `exclude`, iterating over a
     * snapshot of the registry; a failed send disconnects that client and the
     * iteration goes on.
     */
    method Broadcast<M>(message: M, exclude: Option<ClientId>, alive: Socket -> bool) returns (reached: set<ClientId>)
      modifies this
      ensures activeConnections == AfterBroadcast(old(activeConnections), exclude, alive)
      ensures reached == Reached(old(activeConnections), exclude, alive)
    {
      var snapshot := activeConnections;
      var pending := snapshot.Keys;
      reached := {};
      while pending != {}
        invariant pending <= snapshot.Keys
        invariant activeConnections.Keys <= snapshot.Keys
        invariant forall id :: id in activeConnections ==> activeConnections[id] == snapshot[id]
        invariant forall id :: id in snapshot ==>
          (id in activeConnections <==> id in pending || !Addressed(id, exclude) || alive(snapshot[id]))
        invariant forall id :: id in reached <==>
          id in snapshot && id !in pending && Addressed(id, exclude) && alive(snapshot[id])
        decreases pending
      {
        var clientId :| clientId in pending;
        if Addressed(clientId, exclude) {
          if alive(snapshot[clientId]) {
            reached := reached + {clientId};
          } else {
            Disconnect(clientId);
          }
        }
        pending := pending - {clientId};
      }
    }
  }

  /** A broadcast removes exactly the addressed clients whose send failed, and reaches all the others. */
  lemma BroadcastPartition(connections: map<ClientId, Socket>, exclude: Option<ClientId>, alive: Socket -> bool)
    ensures connections.Keys - AfterBroadcast(connections, exclude, alive).Keys
      == set id | id in connections && Addressed(id, exclude) && !alive(connections[id])
    ensures Reached(connections, exclude, alive) <= AfterBroadcast(connections, exclude, alive).Keys
    ensures exclude.Some? && exclude.value in connections ==>
      exclude.value in AfterBroadcast(connections, exclude, alive) && exclude.value !in Reached(connections, exclude, alive)
  {
  }
}
