/**
 * How a join request becomes configuration changes: the scan over the
 * current configuration that evicts conflicting servers, and the final
 * AddVoter. Cluster.Join is proved to follow JoinSpec step by step; the
 * lemmas here state what that behaviour guarantees.
 */
module Membership {
  import opened Wrappers
  import opened Raft

  /** The errors Join reports to its caller. */
  datatype JoinError =
    | ConfigUnavailable
    | RemoveFailed(nodeID: string, addr: string)
    | AddFailed

  /** Where the scan of the configuration stopped, if it did. */
  datatype Halt = Scanning | AlreadyMember | RemovalRefused

  /** The engine's configuration and issued changes part-way through a scan. */
  datatype Progress = Progress(servers: seq<Server>, issued: seq<ConfigChange>, halt: Halt)

  /** What a whole Join leaves behind and returns. */
  datatype JoinRun = JoinRun(servers: seq<Server>, issued: seq<ConfigChange>, err: Option<JoinError>)

  /** The server shares the joining node's ID or its address. */
  predicate Matches(srv: Server, id: string, addr: string)
  {
    srv.id == id || srv.address == addr
  }

  /** The server shares one of ID and address with the joining node, but not both. */
  predicate Conflicts(srv: Server, id: string, addr: string)
  {
    Matches(srv, id, addr) && srv != Server(id, addr)
  }

  /** No two servers of the configuration share an ID or an address. */
  ghost predicate NoConflicts(servers: seq<Server>)
  {
    forall a, b :: a in servers && b in servers && (a.id == b.id || a.address == b.address) ==> a == b
  }

  /** Handling one listed server. */
  function Visit(p: Progress, srv: Server, rejected: set<ConfigChange>, id: string, addr: string): (r: Progress)
    requires p.halt == Scanning
    ensures r.halt == AlreadyMember <==> srv == Server(id, addr)
    ensures srv == Server(id, addr) ==> r == p.(halt := AlreadyMember)
    ensures r.halt == Scanning ==> !Matches(srv, id, addr) || Removal(srv.id) !in rejected
    ensures !Matches(srv, id, addr) ==> r == p
    ensures Conflicts(srv, id, addr) ==> r.issued == p.issued + [Removal(srv.id)]
    ensures Conflicts(srv, id, addr) && r.halt == Scanning ==> r.servers == Without(p.servers, {srv.id})
    ensures Conflicts(srv, id, addr) && r.halt != Scanning ==> r.servers == p.servers
    ensures Conflicts(srv, id, addr) ==> (r.halt == RemovalRefused <==> Removal(srv.id) in rejected)
  {
    if srv.id == id || srv.address == addr then
      if srv.address == addr && srv.id == id then p.(halt := AlreadyMember)
      else if Removal(srv.id) in rejected then Progress(p.servers, p.issued + [Removal(srv.id)], RemovalRefused)
      else Progress(Without(p.servers, {srv.id}), p.issued + [Removal(srv.id)], Scanning)
    else p
  }

  /** Handling the listed servers `visited` in order, from `start`, until one stops the scan. */
  function Scan(visited: seq<Server>, start: Progress, rejected: set<ConfigChange>, id: string, addr: string): (r: Progress)
    requires start.halt == Scanning
    ensures start.issued <= r.issued
    decreases |visited|
  {
    if visited == [] then start
    else
      var p := Scan(visited[..|visited| - 1], start, rejected, id, addr);
      if p.halt == Scanning then Visit(p, visited[|visited| - 1], rejected, id, addr) else p
  }

  /**
   * Join(id, addr) against an engine whose configuration is `servers`, that
   * has issued `issued` so far, refuses the changes in `rejected`, and
   * cannot report its configuration when `configUnavailable`.
   */
  function JoinSpec(servers: seq<Server>, issued: seq<ConfigChange>, rejected: set<ConfigChange>,
                    configUnavailable: bool, id: string, addr: string): (r: JoinRun)
    ensures issued <= r.issued
    ensures r.err == Some(ConfigUnavailable) <==> configUnavailable
    ensures configUnavailable ==> r.servers == servers && r.issued == issued
  {
    if configUnavailable then JoinRun(servers, issued, Some(ConfigUnavailable))
    else
      var p := Scan(servers, Progress(servers, issued, Scanning), rejected, id, addr);
      match p.halt
      case AlreadyMember => JoinRun(p.servers, p.issued, None)
      case RemovalRefused => JoinRun(p.servers, p.issued, Some(RemoveFailed(id, addr)))
      case Scanning =>
        if Addition(id, addr) in rejected then
          JoinRun(p.servers, p.issued + [Addition(id, addr)], Some(AddFailed))
        else
          JoinRun(WithVoter(p.servers, id, addr), p.issued + [Addition(id, addr)], None)
  }

  /** The removals a complete scan of `visited` asks for, in order. */
  function Evictions(visited: seq<Server>, id: string, addr: string): (r: seq<ConfigChange>)
    ensures forall c :: c in r ==> c.Removal?
    ensures forall x :: x in visited && Conflicts(x, id, addr) ==> Removal(x.id) in r
  {
    if visited == [] then []
    else
      var last := visited[|visited| - 1];
      assert visited == visited[..|visited| - 1] + [last];
      Evictions(visited[..|visited| - 1], id, addr) + (if Conflicts(last, id, addr) then [Removal(last.id)] else [])
  }

  /** Once the scan has stopped, later servers change nothing. */
  lemma {:induction false} ScanHalted(visited: seq<Server>, more: seq<Server>, start: Progress,
                                      rejected: set<ConfigChange>, id: string, addr: string)
    requires start.halt == Scanning
    requires Scan(visited, start, rejected, id, addr).halt != Scanning
    ensures Scan(visited + more, start, rejected, id, addr) == Scan(visited, start, rejected, id, addr)
    decreases |more|
  {
    if more == [] {
      assert visited + more == visited;
    } else {
      var init := more[..|more| - 1];
      assert (visited + more)[..|visited + more| - 1] == visited + init;
      ScanHalted(visited, init, start, rejected, id, addr);
    }
  }

  /**
   * What a scan keeps: it only ever drops servers, it asks only for
   * removals, and it stops as a member only at the exact (id, addr) entry.
   */
  lemma {:induction false} ScanShape(visited: seq<Server>, start: Progress, rejected: set<ConfigChange>,
                                     id: string, addr: string)
    requires start.halt == Scanning
    ensures var r := Scan(visited, start, rejected, id, addr);
      && (forall x :: x in r.servers ==> x in start.servers)
      && (forall c :: c in r.issued[|start.issued|..] ==> c.Removal?)
      && (r.halt == AlreadyMember ==> Server(id, addr) in visited)
      && (r.halt == RemovalRefused ==> |r.issued| > |start.issued| && r.issued[|r.issued| - 1] in rejected)
    decreases |visited|
  {
    if visited != [] {
      var init, last := visited[..|visited| - 1], visited[|visited| - 1];
      assert visited == init + [last];
      ScanShape(init, start, rejected, id, addr);
      var p := Scan(init, start, rejected, id, addr);
      assert p.issued[|start.issued|..] + [Removal(last.id)] == (p.issued + [Removal(last.id)])[|start.issued|..];
    }
  }

  /**
   * A scan still running after `visited` has removed every server of
   * `visited` that shares the ID or the address, has met no exact entry,
   * and has asked for exactly the evictions of `visited`.
   */
  lemma {:induction false} ScanScanning(visited: seq<Server>, start: Progress, rejected: set<ConfigChange>,
                                        id: string, addr: string)
    requires start.halt == Scanning
    requires Scan(visited, start, rejected, id, addr).halt == Scanning
    ensures var r := Scan(visited, start, rejected, id, addr);
      && (forall x :: x in r.servers && x in visited ==> !Matches(x, id, addr))
      && Server(id, addr) !in visited
      && r.issued == start.issued + Evictions(visited, id, addr)
    decreases |visited|
  {
    if visited != [] {
      var init, last := visited[..|visited| - 1], visited[|visited| - 1];
      assert visited == init + [last];
      ScanScanning(init, start, rejected, id, addr);
    }
  }

  /**
   * With no conflicting server among `visited`, the scan changes nothing:
   * it stops as a member exactly when the (id, addr) entry is there.
   */
  lemma {:induction false} ScanWithoutConflicts(visited: seq<Server>, start: Progress, rejected: set<ConfigChange>,
                                                id: string, addr: string)
    requires start.halt == Scanning
    requires forall x :: x in visited ==> !Conflicts(x, id, addr)
    ensures var r := Scan(visited, start, rejected, id, addr);
      && r.servers == start.servers && r.issued == start.issued
      && (r.halt == AlreadyMember <==> Server(id, addr) in visited)
      && (r.halt == Scanning <==> Server(id, addr) !in visited)
    decreases |visited|
  {
    if visited != [] {
      var init, last := visited[..|visited| - 1], visited[|visited| - 1];
      assert visited == init + [last];
      ScanWithoutConflicts(init, start, rejected, id, addr);
      var p := Scan(init, start, rejected, id, addr);
      assert !Conflicts(last, id, addr);
      if p.halt == Scanning && Matches(last, id, addr) {
        assert last == Server(id, addr);
        assert Visit(p, last, rejected, id, addr) == p.(halt := AlreadyMember);
      }
    }
  }

  /**
   * Joining with an (ID, address) pair already in a conflict-free
   * configuration succeeds and asks the engine for nothing.
   */
  lemma JoinWhenMember(servers: seq<Server>, issued: seq<ConfigChange>, rejected: set<ConfigChange>,
                       id: string, addr: string)
    requires NoConflicts(servers)
    requires Server(id, addr) in servers
    ensures JoinSpec(servers, issued, rejected, false, id, addr) == JoinRun(servers, issued, None)
  {
    forall x | x in servers ensures !Conflicts(x, id, addr) {
      if Matches(x, id, addr) {
        assert x == Server(id, addr);
      }
    }
    ScanWithoutConflicts(servers, Progress(servers, issued, Scanning), rejected, id, addr);
  }

  /**
   * The servers a Join leaves: every server that shares neither the ID nor
   * the address stays, and nothing appears but the joining node.
   */
  lemma JoinKeepsOthers(servers: seq<Server>, issued: seq<ConfigChange>, rejected: set<ConfigChange>,
                        configUnavailable: bool, id: string, addr: string)
    requires NoConflicts(servers)
    ensures var r := JoinSpec(servers, issued, rejected, configUnavailable, id, addr);
      && (forall x :: x in servers && !Matches(x, id, addr) ==> x in r.servers)
      && (forall x :: x in r.servers ==> x in servers || x == Server(id, addr))
  {
    if !configUnavailable {
      var start := Progress(servers, issued, Scanning);
      ScanKeepsOthers(servers, start, rejected, id, addr);
      ScanShape(servers, start, rejected, id, addr);
    }
  }

  /** Helper for JoinKeepsOthers: the scan keeps every server that does not match. */
  lemma {:induction false} ScanKeepsOthers(visited: seq<Server>, start: Progress, rejected: set<ConfigChange>,
                                           id: string, addr: string)
    requires start.halt == Scanning
    requires NoConflicts(start.servers)
    requires forall x :: x in visited ==> x in start.servers
    ensures var r := Scan(visited, start, rejected, id, addr);
      forall x :: x in start.servers && !Matches(x, id, addr) ==> x in r.servers
    decreases |visited|
  {
    if visited != [] {
      var init, last := visited[..|visited| - 1], visited[|visited| - 1];
      assert visited == init + [last];
      ScanKeepsOthers(init, start, rejected, id, addr);
      var p := Scan(init, start, rejected, id, addr);
      if p.halt == Scanning && Conflicts(last, id, addr) && Removal(last.id) !in rejected {
        forall x | x in start.servers && !Matches(x, id, addr)
          ensures x in Without(p.servers, {last.id})
        {
          ScanShape(init, start, rejected, id, addr);
          assert last in start.servers;
        }
      }
    }
  }

  /** Join never leaves two servers sharing an ID or an address behind. */
  lemma JoinKeepsNoConflicts(servers: seq<Server>, issued: seq<ConfigChange>, rejected: set<ConfigChange>,
                             configUnavailable: bool, id: string, addr: string)
    requires NoConflicts(servers)
    ensures NoConflicts(JoinSpec(servers, issued, rejected, configUnavailable, id, addr).servers)
  {
    if !configUnavailable {
      var start := Progress(servers, issued, Scanning);
      var p := Scan(servers, start, rejected, id, addr);
      ScanShape(servers, start, rejected, id, addr);
      if p.halt == Scanning && Addition(id, addr) !in rejected {
        ScanScanning(servers, start, rejected, id, addr);
        assert forall x :: x in p.servers ==> x.id != id;
        var r := WithVoter(p.servers, id, addr);
        assert r == p.servers + [Server(id, addr)];
        forall a, b | a in r && b in r && (a.id == b.id || a.address == b.address) ensures a == b {
          if a != Server(id, addr) && b != Server(id, addr) {
            assert a in servers && b in servers;
          }
        }
      }
    }
  }

  /**
   * A successful Join on a conflict-free configuration leaves exactly one
   * server with the joining ID and exactly one with the joining address:
   * the joining node itself.
   */
  lemma JoinSuccessAdmitsNode(servers: seq<Server>, issued: seq<ConfigChange>, rejected: set<ConfigChange>,
                              configUnavailable: bool, id: string, addr: string)
    requires NoConflicts(servers)
    requires JoinSpec(servers, issued, rejected, configUnavailable, id, addr).err == None
    ensures var r := JoinSpec(servers, issued, rejected, configUnavailable, id, addr);
      && Server(id, addr) in r.servers
      && forall x :: x in r.servers && Matches(x, id, addr) ==> x == Server(id, addr)
  {
    var r := JoinSpec(servers, issued, rejected, configUnavailable, id, addr);
    if Server(id, addr) in servers {
      JoinWhenMember(servers, issued, rejected, id, addr);
    } else {
      var start := Progress(servers, issued, Scanning);
      ScanShape(servers, start, rejected, id, addr);
      JoinKeepsNoConflicts(servers, issued, rejected, configUnavailable, id, addr);
    }
  }

  /**
   * Join is idempotent: after a successful Join(id, addr), the same request
   * again succeeds and asks the engine for nothing.
   */
  lemma JoinIdempotent(servers: seq<Server>, issued: seq<ConfigChange>, rejected: set<ConfigChange>,
                       id: string, addr: string)
    requires NoConflicts(servers)
    requires JoinSpec(servers, issued, rejected, false, id, addr).err == None
    ensures var r := JoinSpec(servers, issued, rejected, false, id, addr);
      JoinSpec(r.servers, r.issued, rejected, false, id, addr) == JoinRun(r.servers, r.issued, None)
  {
    var r := JoinSpec(servers, issued, rejected, false, id, addr);
    JoinSuccessAdmitsNode(servers, issued, rejected, false, id, addr);
    JoinKeepsNoConflicts(servers, issued, rejected, false, id, addr);
    JoinWhenMember(r.servers, r.issued, rejected, id, addr);
  }

  /** An engine that refuses nothing and reports its configuration lets every Join succeed. */
  lemma JoinWithoutRefusals(servers: seq<Server>, issued: seq<ConfigChange>, id: string, addr: string)
    ensures JoinSpec(servers, issued, {}, false, id, addr).err == None
  {
    ScanShape(servers, Progress(servers, issued, Scanning), {}, id, addr);
  }

  /**
   * The requests a Join sends: a refused removal ends it without any
   * AddVoter; otherwise, unless the exact entry was found, it asks for the
   * eviction of every conflicting server, in configuration order, and then
   * for AddVoter(id, addr), whose refusal is the error it returns.
   */
  lemma JoinRequests(servers: seq<Server>, issued: seq<ConfigChange>, rejected: set<ConfigChange>,
                     id: string, addr: string)
    ensures var r := JoinSpec(servers, issued, rejected, false, id, addr);
      && (r.err.Some? ==> r.err == Some(RemoveFailed(id, addr)) || r.err == Some(AddFailed))
      && (r.err == Some(RemoveFailed(id, addr)) ==>
            && (forall c :: c in r.issued[|issued|..] ==> c.Removal?)
            && |r.issued| > |issued| && r.issued[|r.issued| - 1] in rejected)
      && (r.err == Some(AddFailed) ==>
            && r.issued == issued + Evictions(servers, id, addr) + [Addition(id, addr)]
            && Addition(id, addr) in rejected)
      && (r.err == None ==>
            || r.issued == issued + Evictions(servers, id, addr) + [Addition(id, addr)]
            || (Server(id, addr) in servers && forall c :: c in r.issued[|issued|..] ==> c.Removal?))
      && ((exists c :: c in r.issued[|issued|..] && c.Removal? && c in rejected) ==>
            r.err == Some(RemoveFailed(id, addr)))
      && (r.err == None ==> forall c :: c in r.issued[|issued|..] ==> c !in rejected)
  {
    var start := Progress(servers, issued, Scanning);
    var p := Scan(servers, start, rejected, id, addr);
    ScanShape(servers, start, rejected, id, addr);
    if p.halt == Scanning {
      ScanScanning(servers, start, rejected, id, addr);
    }
    JoinRefusalsDecide(servers, issued, rejected, id, addr);
  }

  /**
   * Refusals decide the outcome: a refused removal always ends the Join
   * with RemoveFailed, and a Join that succeeds had none of its requests
   * refused.
   */
  lemma JoinRefusalsDecide(servers: seq<Server>, issued: seq<ConfigChange>, rejected: set<ConfigChange>,
                           id: string, addr: string)
    ensures var r := JoinSpec(servers, issued, rejected, false, id, addr);
      && ((exists c :: c in r.issued[|issued|..] && c.Removal? && c in rejected) ==>
            r.err == Some(RemoveFailed(id, addr)))
      && (r.err == None ==> forall c :: c in r.issued[|issued|..] ==> c !in rejected)
  {
    var start := Progress(servers, issued, Scanning);
    var p := Scan(servers, start, rejected, id, addr);
    ScanAccepted(servers, start, rejected, id, addr);
    if p.halt == Scanning {
      var r := JoinSpec(servers, issued, rejected, false, id, addr);
      assert r.issued[|issued|..] == p.issued[|issued|..] + [Addition(id, addr)];
    }
  }

  /** Every change a scan issues before it stops on a refusal was accepted. */
  lemma {:induction false} ScanAccepted(visited: seq<Server>, start: Progress, rejected: set<ConfigChange>,
                                        id: string, addr: string)
    requires start.halt == Scanning
    ensures var r := Scan(visited, start, rejected, id, addr);
      r.halt != RemovalRefused ==> forall c :: c in r.issued[|start.issued|..] ==> c !in rejected
    decreases |visited|
  {
    if visited != [] {
      var init, last := visited[..|visited| - 1], visited[|visited| - 1];
      assert visited == init + [last];
      ScanAccepted(init, start, rejected, id, addr);
      var p := Scan(init, start, rejected, id, addr);
      assert p.issued[|start.issued|..] + [Removal(last.id)] == (p.issued + [Removal(last.id)])[|start.issued|..];
    }
  }

  /**
   * The partial-failure window: when AddVoter is refused after the scan,
   * the configuration keeps no server with the joining ID or address, so
   * an evicted old entry is gone and the new one was never added.
   */
  lemma JoinAddRefusedLeavesNeither(servers: seq<Server>, issued: seq<ConfigChange>, rejected: set<ConfigChange>,
                                    id: string, addr: string)
    requires JoinSpec(servers, issued, rejected, false, id, addr).err == Some(AddFailed)
    ensures var r := JoinSpec(servers, issued, rejected, false, id, addr);
      forall x :: x in r.servers ==> !Matches(x, id, addr)
  {
    var start := Progress(servers, issued, Scanning);
    ScanShape(servers, start, rejected, id, addr);
    ScanScanning(servers, start, rejected, id, addr);
  }

  /**
   * Conflict resolution: when the joining ID is listed with another
   * address, a Join that succeeds leaves that ID listed once, at the new
   * address.
   */
  lemma JoinMovesAddress(servers: seq<Server>, issued: seq<ConfigChange>, rejected: set<ConfigChange>,
                         id: string, oldAddr: string, addr: string)
    requires NoConflicts(servers)
    requires Server(id, oldAddr) in servers && oldAddr != addr
    requires JoinSpec(servers, issued, rejected, false, id, addr).err == None
    ensures var r := JoinSpec(servers, issued, rejected, false, id, addr);
      && Server(id, oldAddr) !in r.servers
      && Server(id, addr) in r.servers
      && forall x :: x in r.servers && x.id == id ==> x.address == addr
  {
    JoinSuccessAdmitsNode(servers, issued, rejected, false, id, addr);
  }

  /**
   * Why the lemmas above assume NoConflicts: the scan walks the list read
   * at the start. On a configuration listing one ID twice, which the real
   * engine refuses, this model's RemoveServer (it drops every entry with the
   * ID) also drops the exact entry, and the later exact match still reports
   * success.
   */
  lemma JoinOnDuplicateID()
    ensures var r := JoinSpec([Server("n2", "b"), Server("n2", "a")], [], {}, false, "n2", "a");
      r.err == None && Server("n2", "a") !in r.servers
  {
    var list := [Server("n2", "b"), Server("n2", "a")];
    var start := Progress(list, [], Scanning);
    assert list[..1][..0] == [];
    assert list[..2][..1] == list[..1];
    assert list[..2] == list;
    assert Scan(list[..1][..0], start, {}, "n2", "a") == start;
    assert list[..1][0] == Server("n2", "b");
    assert Visit(start, Server("n2", "b"), {}, "n2", "a") == Progress([], [Removal("n2")], Scanning);
    var p1 := Scan(list[..1], start, {}, "n2", "a");
    assert p1 == Progress([], [Removal("n2")], Scanning);
  }
}
