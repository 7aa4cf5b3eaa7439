/**
 * The node: the key-value state machine the consensus engine drives, and
 * the membership operations the HTTP service calls. Locking is left out;
 * every method runs atomically.
 */
module Cluster {
  import opened Wrappers
  import opened Raft
  import opened StateMachine
  import opened Membership

  /**
   * A string-to-string map held by reference: whoever holds the object
   * sees every update made through it.
   */
  class Table {
    var entries: Store

    /** A new, empty map. */
    constructor ()
      ensures entries == map[]
    {
      entries := map[];
    }

    /** A new map holding `entries`, as a decoder fills one. */
    constructor Of(entries: Store)
      ensures this.entries == entries
    {
      this.entries := entries;
    }

    /** Inserts or overwrites `key`. */
    method Put(key: string, value: string)
      modifies this
      ensures entries == old(entries)[key := value]
    {
      entries := entries[key := value];
    }

    /** Removes `key`; an absent key is not an error. */
    method Remove(key: string)
      modifies this
      ensures entries == old(entries) - {key}
    {
      entries := entries - {key};
    }
  }

  /** A point-in-time copy of the store, handed to the engine for persisting. */
  datatype FsmSnapshot = FsmSnapshot(store: Table)

  class Cluster {
    var m: Table
    const name: string
    const raft: Engine

    /** A fresh node with an empty store, named `localID`, driven by `raft`. */
    constructor (localID: string, raft: Engine)
      ensures fresh(m) && m.entries == map[] && name == localID && this.raft == raft
    {
      m := new Table();
      name := localID;
      this.raft := raft;
    }

    /** Whether this node currently leads the cluster. */
    function Leader(): bool
      reads raft
    {
      raft.state == RaftState.Leader
    }

    /** The identifier this node was started with. */
    function NodeID(): string
    {
      name
    }

    /**
     * Applies one committed entry; `entry` is the decoded command, None when
     * the entry's bytes do not decode. A fatal outcome leaves the store as
     * it was: the process aborts before touching it.
     */
    method Apply(entry: Option<Command>) returns (r: Option<Fatal>)
      modifies m
      ensures r.None? <==> Applicable(entry)
      ensures r.Some? ==> Step(old(m.entries), entry) == Panic(r.value) && m.entries == old(m.entries)
      ensures r.None? ==> Step(old(m.entries), entry) == Ok(m.entries)
    {
      match entry {
        case None =>
          return Some(MalformedCommand);
        case Some(c) =>
          if c.op == "set" {
            ApplySet(c.key, c.value);
            return None;
          } else if c.op == "delete" {
            ApplyDelete(c.key);
            return None;
          } else {
            return Some(UnrecognizedOp(c.op));
          }
      }
    }

    /** Inserts or overwrites `key`. */
    method ApplySet(key: string, value: string)
      modifies m
      ensures m.entries == old(m.entries)[key := value]
    {
      m.Put(key, value);
    }

    /** Removes `key`; an absent key is not an error. */
    method ApplyDelete(key: string)
      modifies m
      ensures m.entries == old(m.entries) - {key}
    {
      m.Remove(key);
    }

    /** Copies the store entry by entry into a new map of its own. */
    method Snapshot() returns (s: FsmSnapshot)
      ensures fresh(s.store) && s.store.entries == m.entries
    {
      var o := new Table();
      var rest := m.entries.Keys;
      while rest != {}
        invariant fresh(o)
        invariant rest <= m.entries.Keys
        invariant o.entries.Keys == m.entries.Keys - rest
        invariant forall k :: k in o.entries ==> o.entries[k] == m.entries[k]
        decreases rest
      {
        var k :| k in rest;
        o.Put(k, m.entries[k]);
        rest := rest - {k};
      }
      s := FsmSnapshot(o);
    }

    /**
     * Replaces the store with a decoded snapshot, with no merge. `decoded`
     * is None when the snapshot does not decode; the store is then kept and
     * an error returned.
     */
    method Restore(decoded: Option<Store>) returns (failed: bool)
      modifies this
      ensures failed <==> decoded.None?
      ensures failed ==> m == old(m) && m.entries == old(m.entries)
      ensures !failed ==> fresh(m) && m.entries == decoded.value
    {
      if decoded.None? {
        return true;
      }
      m := new Table.Of(decoded.value);
      return false;
    }

    /**
     * Admits (nodeID, addr) as a voter. A server that shares the ID or the
     * address, but not both, is removed first; the exact pair already being
     * listed makes the request a no-op.
     */
    method Join(nodeID: string, addr: string) returns (err: Option<JoinError>)
      modifies raft`servers, raft`issued
      ensures JoinRun(raft.servers, raft.issued, err)
              == JoinSpec(old(raft.servers), old(raft.issued), raft.rejected, raft.configUnavailable, nodeID, addr)
    {
      var config := raft.GetConfiguration();
      if config.None? {
        return Some(ConfigUnavailable);
      }
      var list := config.value;
      ghost var start := Progress(list, raft.issued, Scanning);
      var i := 0;
      while i < |list|
        invariant 0 <= i <= |list|
        invariant list == old(raft.servers) && start.issued == old(raft.issued)
        invariant Scan(list[..i], start, raft.rejected, nodeID, addr) == Progress(raft.servers, raft.issued, Scanning)
      {
        var srv := list[i];
        assert list[..i + 1][..i] == list[..i];
        assert list[..i + 1] + list[i + 1..] == list;
        if srv.id == nodeID || srv.address == addr {
          if srv.address == addr && srv.id == nodeID {
            ScanHalted(list[..i + 1], list[i + 1..], start, raft.rejected, nodeID, addr);
            return None;
          }
          var ok := raft.RemoveServer(srv.id);
          if !ok {
            ScanHalted(list[..i + 1], list[i + 1..], start, raft.rejected, nodeID, addr);
            return Some(RemoveFailed(nodeID, addr));
          }
        }
        i := i + 1;
      }
      assert list[..i] == list;
      var ok := raft.AddVoter(nodeID, addr);
      if !ok {
        return Some(AddFailed);
      }
      return None;
    }
  }

  /**
   * The engine's delivery of committed entries: one Apply at a time, in log
   * order, until an entry aborts the process. The store ends as the replay
   * of the log from the store it started with.
   */
  method DeliverCommitted(c: Cluster, entries: seq<Option<Command>>) returns (r: Option<Fatal>)
    modifies c.m
    ensures r.None? ==> Replay(old(c.m.entries), entries) == Ok(c.m.entries)
    ensures r.Some? ==> Replay(old(c.m.entries), entries) == Panic(r.value)
  {
    var i := 0;
    while i < |entries|
      invariant 0 <= i <= |entries|
      invariant Replay(old(c.m.entries), entries[..i]) == Ok(c.m.entries)
    {
      ReplaySnoc(old(c.m.entries), entries[..i], entries[i]);
      assert entries[..i + 1] == entries[..i] + [entries[i]];
      var fatal := c.Apply(entries[i]);
      if fatal.Some? {
        ReplayAppend(old(c.m.entries), entries[..i + 1], entries[i + 1..]);
        assert entries[..i + 1] + entries[i + 1..] == entries;
        return fatal;
      }
      i := i + 1;
    }
    assert entries[..i] == entries;
    return None;
  }

  /**
   * A snapshot is a separate map: entries applied to the store after it
   * leave it as taken.
   */
  method SnapshotIsolation(c: Cluster, entry: Option<Command>) returns (s: FsmSnapshot)
    modifies c.m
    ensures s.store != c.m && s.store.entries == old(c.m.entries)
  {
    s := c.Snapshot();
    var _ := c.Apply(entry);
  }

  /** Restoring the snapshot just taken gives back the store it was taken from. */
  method SnapshotRestoreRoundTrip(c: Cluster) returns (failed: bool)
    modifies c
    ensures !failed && c.m.entries == old(c.m.entries)
  {
    var s := c.Snapshot();
    failed := c.Restore(Some(s.store.entries));
  }
}
