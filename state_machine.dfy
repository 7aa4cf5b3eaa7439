/**
 * The key-value state machine that committed log entries drive, as pure
 * functions over the store. The class in module Cluster is proved against
 * these definitions.
 */
module StateMachine {
  import opened Wrappers

  /** The replicated store: string keys to string values. */
  type Store = map<string, string>

  /**
   * A decoded log command. The operation stays the raw string the entry
   * carries: anything but "set" and "delete" is a corrupt log.
   */
  datatype Command = Command(op: string, key: string, value: string)

  /** Why applying an entry brings the process down. */
  datatype Fatal = MalformedCommand | UnrecognizedOp(op: string)

  /** The store after an entry, or the fatal condition it raised. */
  datatype Applied = Ok(store: Store) | Panic(reason: Fatal)

  /** An entry the state machine can apply without aborting. */
  predicate Applicable(entry: Option<Command>)
  {
    entry.Some? && (entry.value.op == "set" || entry.value.op == "delete")
  }

  /**
   * Applying one committed entry. `entry` is the outcome of decoding the
   * entry's bytes: None when they are not a well-formed command.
   */
  function Step(m: Store, entry: Option<Command>): (r: Applied)
    ensures r.Ok? <==> Applicable(entry)
    ensures entry.None? ==> r == Panic(MalformedCommand)
    ensures entry.Some? && !Applicable(entry) ==> r == Panic(UnrecognizedOp(entry.value.op))
    ensures entry.Some? && entry.value.op == "set" ==>
              && r.store.Keys == m.Keys + {entry.value.key}
              && r.store[entry.value.key] == entry.value.value
              && (forall k :: k in m && k != entry.value.key ==> r.store[k] == m[k])
    ensures entry.Some? && entry.value.op == "delete" ==>
              && r.store.Keys == m.Keys - {entry.value.key}
              && (forall k :: k in r.store ==> r.store[k] == m[k])
  {
    match entry
    case None => Panic(MalformedCommand)
    case Some(c) =>
      if c.op == "set" then Ok(m[c.key := c.value])
      else if c.op == "delete" then Ok(m - {c.key})
      else Panic(UnrecognizedOp(c.op))
  }

  /**
   * Applying committed entries one after another, in log order, starting
   * from `m`. The first entry that cannot be applied ends the run.
   */
  function Replay(m: Store, entries: seq<Option<Command>>): (r: Applied)
    ensures r.Ok? <==> forall i :: 0 <= i < |entries| ==> Applicable(entries[i])
    decreases entries
  {
    if entries == [] then Ok(m)
    else
      match Step(m, entries[0])
      case Ok(m') => Replay(m', entries[1..])
      case Panic(reason) => Panic(reason)
  }

  /** Continuing a run with more entries. */
  function Then(r: Applied, entries: seq<Option<Command>>): Applied
  {
    match r
    case Ok(m) => Replay(m, entries)
    case Panic(reason) => Panic(reason)
  }

  /** Replaying a log in two parts gives what replaying it at once gives. */
  lemma {:induction false} ReplayAppend(m: Store, a: seq<Option<Command>>, b: seq<Option<Command>>)
    ensures Replay(m, a + b) == Then(Replay(m, a), b)
    decreases a
  {
    if a != [] {
      assert (a + b)[0] == a[0];
      assert (a + b)[1..] == a[1..] + b;
      match Step(m, a[0])
      case Ok(m') => ReplayAppend(m', a[1..], b);
      case Panic(_) =>
    } else {
      assert a + b == b;
    }
  }

  /** Replaying one more entry is one more Step. */
  lemma ReplaySnoc(m: Store, entries: seq<Option<Command>>, e: Option<Command>)
    requires Replay(m, entries).Ok?
    ensures Replay(m, entries + [e]) == Step(Replay(m, entries).store, e)
  {
    ReplayAppend(m, entries, [e]);
    var s := Replay(m, entries).store;
    assert [e][1..] == [];
    match Step(s, e)
    case Ok(s') => assert Replay(s, [e]) == Replay(s', []);
    case Panic(_) =>
  }

  /** Whether an entry is a command on key `k`. */
  predicate Touches(entry: Option<Command>, k: string)
  {
    entry.Some? && entry.value.key == k
  }

  /**
   * A reference reading of key `k` after a log: the last command on `k`
   * decides ("set" gives its value, anything else removes the key), and a
   * key no command touches keeps its value from `m`.
   */
  function LastWrite(m: Store, entries: seq<Option<Command>>, k: string): Option<string>
  {
    if entries == [] then (if k in m then Some(m[k]) else None)
    else if Touches(entries[|entries| - 1], k) then
      (if entries[|entries| - 1].value.op == "set" then Some(entries[|entries| - 1].value.value) else None)
    else LastWrite(m, entries[..|entries| - 1], k)
  }

  /**
   * Order determinism: the store a replay of applicable entries produces
   * holds, for every key, exactly what the last command on that key wrote.
   */
  lemma {:induction false} ReplayIsLastWrite(m: Store, entries: seq<Option<Command>>, k: string)
    requires Replay(m, entries).Ok?
    ensures k in Replay(m, entries).store <==> LastWrite(m, entries, k).Some?
    ensures k in Replay(m, entries).store ==> Replay(m, entries).store[k] == LastWrite(m, entries, k).value
  {
    if entries != [] {
      var init, e := entries[..|entries| - 1], entries[|entries| - 1];
      assert entries == init + [e];
      ReplayAppend(m, init, [e]);
      assert Replay(m, init).Ok? by {
        forall i | 0 <= i < |init| ensures Applicable(init[i]) {
          assert init[i] == entries[i];
        }
      }
      ReplaySnoc(m, init, e);
      ReplayIsLastWrite(m, init, k);
    }
  }

  /** Deleting a key the store does not hold changes nothing and is not an error. */
  lemma DeleteAbsentIsNoop(m: Store, key: string, value: string)
    requires key !in m
    ensures Step(m, Some(Command("delete", key, value))) == Ok(m)
  {
  }

  /** Set a, set b, delete a: only b remains. */
  lemma SetSetDeleteScenario()
    ensures Replay(map[], [Some(Command("set", "a", "1")), Some(Command("set", "b", "2")),
                           Some(Command("delete", "a", ""))])
            == Ok(map["b" := "2"])
  {
  }
}
