/**
 * The consensus engine as this core sees it: a voter configuration, a role,
 * and two configuration-change requests that the engine may refuse.
 * Elections, replication and storage are not part of this model; the engine
 * is reduced to the state that Join reads and the changes it asks for.
 */
module Raft {
  import opened Wrappers

  /** A voting member of the cluster. */
  datatype Server = Server(id: string, address: string)

  /** The role the local engine reports. */
  datatype RaftState = Follower | Candidate | Leader | Shutdown

  /** A configuration change the core can ask the engine for. */
  datatype ConfigChange = Removal(id: string) | Addition(id: string, address: string)

  /** The configuration with every server whose ID is in `ids` dropped. */
  function Without(servers: seq<Server>, ids: set<string>): (r: seq<Server>)
    ensures forall x :: x in r <==> x in servers && x.id !in ids
    ensures |r| <= |servers|
  {
    if servers == [] then []
    else (if servers[0].id in ids then [] else [servers[0]]) + Without(servers[1..], ids)
  }

  /**
   * The configuration after a successful AddVoter: the first server that
   * already has this ID takes the new address in place; otherwise the new
   * voter is appended.
   */
  function WithVoter(servers: seq<Server>, id: string, address: string): (r: seq<Server>)
    ensures Server(id, address) in r
    ensures forall x :: x in servers && x.id != id ==> x in r
    ensures forall x :: x in r ==> x == Server(id, address) || x in servers
    ensures (forall x :: x in servers ==> x.id != id) ==> r == servers + [Server(id, address)]
  {
    if servers == [] then [Server(id, address)]
    else if servers[0].id == id then [Server(id, address)] + servers[1..]
    else [servers[0]] + WithVoter(servers[1..], id, address)
  }

  /**
   * The local consensus engine. `rejected` and `configUnavailable` stand for
   * the failures the real engine can report (lost leadership, no quorum,
   * shutdown): a change in `rejected` is refused every time it is asked for.
   * `issued` records every configuration change requested, in order.
   */
  class Engine {
    var servers: seq<Server>
    var state: RaftState
    var issued: seq<ConfigChange>
    const rejected: set<ConfigChange>
    const configUnavailable: bool

    constructor (servers: seq<Server>, state: RaftState, rejected: set<ConfigChange>, configUnavailable: bool)
      ensures this.servers == servers && this.state == state && issued == []
      ensures this.rejected == rejected && this.configUnavailable == configUnavailable
    {
      this.servers := servers;
      this.state := state;
      this.issued := [];
      this.rejected := rejected;
      this.configUnavailable := configUnavailable;
    }

    /** The current configuration, or None when the engine cannot report it. */
    method GetConfiguration() returns (r: Option<seq<Server>>)
      ensures configUnavailable ==> r == None
      ensures !configUnavailable ==> r == Some(servers)
    {
      if configUnavailable {
        r := None;
      } else {
        r := Some(servers);
      }
    }

    /** Asks for `id` to leave the configuration; `ok` is false when refused. */
    method RemoveServer(id: string) returns (ok: bool)
      modifies this`servers, this`issued
      ensures issued == old(issued) + [Removal(id)]
      ensures ok <==> Removal(id) !in rejected
      ensures servers == if ok then Without(old(servers), {id}) else old(servers)
    {
      issued := issued + [Removal(id)];
      ok := Removal(id) !in rejected;
      if ok {
        servers := Without(servers, {id});
      }
    }

    /** Asks for (id, address) to join as a voter; `ok` is false when refused. */
    method AddVoter(id: string, address: string) returns (ok: bool)
      modifies this`servers, this`issued
      ensures issued == old(issued) + [Addition(id, address)]
      ensures ok <==> Addition(id, address) !in rejected
      ensures servers == if ok then WithVoter(old(servers), id, address) else old(servers)
    {
      issued := issued + [Addition(id, address)];
      ok := Addition(id, address) !in rejected;
      if ok {
        servers := WithVoter(servers, id, address);
      }
    }
  }
}
