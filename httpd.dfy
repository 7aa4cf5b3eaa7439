/**
 * The HTTP control plane: the status endpoint and the join endpoint. The
 * decisions are pure functions of the request and of what the cluster
 * reports; class Service makes the calls on a Cluster and is proved to
 * answer as they decide. Decoding the JSON body is outside the model: a
 * join request arrives as the decoded map, or None when decoding failed.
 */
module Httpd {
  import opened Wrappers
  import opened Membership
  import opened Cluster

  const StatusOK: int := 200
  const StatusBadRequest: int := 400
  const StatusInternalServerError: int := 500

  /** The arguments the handler passed to Cluster.Join. */
  datatype JoinCall = JoinCall(nodeID: string, addr: string)

  /** The status and body written, and the Join call made, if any. */
  datatype Reply = Reply(status: int, body: string, joined: Option<JoinCall>)

  /**
   * The join handler. `joinFailed` is what Join reports when it is called.
   * Only a body holding exactly the keys "id" and "addr" reaches Join.
   */
  function JoinDecision(decoded: Option<map<string, string>>, joinFailed: bool): (r: Reply)
    ensures r.body == ""
    ensures r.joined.Some? <==> decoded.Some? && decoded.value.Keys == {"id", "addr"}
    ensures r.joined.Some? ==> r.joined.value == JoinCall(decoded.value["id"], decoded.value["addr"])
    ensures r.joined.None? ==> r.status == StatusBadRequest
    ensures r.joined.Some? && joinFailed ==> r.status == StatusInternalServerError
    ensures r.joined.Some? && !joinFailed ==> r.status == StatusOK
  {
    match decoded
    case None => Reply(StatusBadRequest, "", None)
    case Some(m) =>
      if |m| != 2 then Reply(StatusBadRequest, "", None)
      else if "addr" !in m then Reply(StatusBadRequest, "", None)
      else if "id" !in m then Reply(StatusBadRequest, "", None)
      else
        var call := JoinCall(m["id"], m["addr"]);
        assert m.Keys == {"id", "addr"} by {
          assert {"id", "addr"} <= m.Keys;
          KeysOfPair(m.Keys, "id", "addr");
        }
        if joinFailed then Reply(StatusInternalServerError, "", Some(call))
        else Reply(StatusOK, "", Some(call))
  }

  /** A two-element set holding two distinct elements holds nothing else. */
  lemma KeysOfPair(keys: set<string>, a: string, b: string)
    requires a != b && a in keys && b in keys && |keys| == 2
    ensures keys == {a, b}
  {
    var rest := keys - {a, b};
    assert keys == rest + {a, b};
    assert |{a, b}| == 2;
  }

  /**
   * Routing: "/join" goes to the join handler; every other path gets the
   * status body and never reaches Join.
   */
  function ServeDecision(path: string, leader: bool, nodeID: string,
                         decoded: Option<map<string, string>>, joinFailed: bool): (r: Reply)
    ensures path == "/join" ==> r == JoinDecision(decoded, joinFailed)
    ensures path != "/join" ==> r.joined == None && r.status == StatusOK
    ensures path != "/join" && leader ==> r.body == "I am server " + nodeID + ".\n"
    ensures path != "/join" && !leader ==> r.body == "I am not the leader.\n"
  {
    if path == "/join" then JoinDecision(decoded, joinFailed)
    else if leader then Reply(StatusOK, "I am server " + nodeID + ".\n", None)
    else Reply(StatusOK, "I am not the leader.\n", None)
  }

  /** A client can tell the leader from a follower by the status body alone. */
  lemma {:induction false} StatusBodiesDiffer(nodeID: string, decoded: Option<map<string, string>>, joinFailed: bool)
    ensures ServeDecision("/", true, nodeID, decoded, joinFailed).body
            != ServeDecision("/", false, nodeID, decoded, joinFailed).body
  {
    var leaderBody := ServeDecision("/", true, nodeID, decoded, joinFailed).body;
    var followerBody := ServeDecision("/", false, nodeID, decoded, joinFailed).body;
    assert leaderBody[5] == 's';
    assert followerBody[5] == 'n';
  }

  /** A join body without "addr" is a bad request and reaches no Join. */
  lemma MissingAddrScenario(joinFailed: bool)
    ensures ServeDecision("/join", true, "n1", Some(map["id" := "n2"]), joinFailed)
            == Reply(StatusBadRequest, "", None)
  {
  }

  /** The HTTP front door of one node. */
  class Service {
    const cluster: Cluster

    constructor (cluster: Cluster)
      ensures this.cluster == cluster
    {
      this.cluster := cluster;
    }

    /** Serves one request; for "/join", `decoded` is the decoded body. */
    method ServeHTTP(path: string, decoded: Option<map<string, string>>) returns (r: Reply)
      modifies cluster.raft`servers, cluster.raft`issued
      ensures r.joined.None? ==>
                && unchanged(cluster.raft)
                && r == ServeDecision(path, cluster.Leader(), cluster.NodeID(), decoded, false)
      ensures r.joined.Some? ==>
                var run := JoinSpec(old(cluster.raft.servers), old(cluster.raft.issued), cluster.raft.rejected,
                                    cluster.raft.configUnavailable, r.joined.value.nodeID, r.joined.value.addr);
                && cluster.raft.servers == run.servers && cluster.raft.issued == run.issued
                && r == ServeDecision(path, cluster.Leader(), cluster.NodeID(), decoded, run.err.Some?)
    {
      if path == "/join" {
        r := HandleJoin(decoded);
        return;
      }
      if cluster.Leader() {
        var id := cluster.NodeID();
        r := Reply(StatusOK, "I am server " + id + ".\n", None);
      } else {
        r := Reply(StatusOK, "I am not the leader.\n", None);
      }
    }

    /** Validates a join body and, when it is well formed, calls Join. */
    method HandleJoin(decoded: Option<map<string, string>>) returns (r: Reply)
      modifies cluster.raft`servers, cluster.raft`issued
      ensures r.joined.None? ==> unchanged(cluster.raft) && r == JoinDecision(decoded, false)
      ensures r.joined.Some? ==>
                var run := JoinSpec(old(cluster.raft.servers), old(cluster.raft.issued), cluster.raft.rejected,
                                    cluster.raft.configUnavailable, r.joined.value.nodeID, r.joined.value.addr);
                && cluster.raft.servers == run.servers && cluster.raft.issued == run.issued
                && r == JoinDecision(decoded, run.err.Some?)
    {
      if decoded.None? {
        return Reply(StatusBadRequest, "", None);
      }
      var m := decoded.value;
      if |m| != 2 {
        return Reply(StatusBadRequest, "", None);
      }
      if "addr" !in m {
        return Reply(StatusBadRequest, "", None);
      }
      var remoteAddr := m["addr"];
      if "id" !in m {
        return Reply(StatusBadRequest, "", None);
      }
      var nodeID := m["id"];
      var err := cluster.Join(nodeID, remoteAddr);
      if err.Some? {
        return Reply(StatusInternalServerError, "", Some(JoinCall(nodeID, remoteAddr)));
      }
      return Reply(StatusOK, "", Some(JoinCall(nodeID, remoteAddr)));
    }
  }
}
