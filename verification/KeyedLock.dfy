/** The supervisor's lock: one chain of promises per key. An operation waits for the promise of the one
    that was last in its chain when it arrived, and resolves its own when it ends, well or badly. */
module KeyedLock {
  import opened Wrappers

  type Key = string
  type Operation = nat

  /** `locks` is the source's map: the newest operation of every chain in use. `previous` is what each
      operation awaits. The last three say, per key and in order, who arrived, who began, and who has not
      ended yet; they only record what happens. */
  datatype Chains = Chains(
    locks: map<Key, Operation>, previous: map<Operation, Option<Operation>>, keys: map<Operation, Key>,
    resolved: set<Operation>, running: set<Operation>,
    arrived: map<Key, seq<Operation>>, begun: map<Key, seq<Operation>>, live: map<Key, seq<Operation>>)

  function At(m: map<Key, seq<Operation>>, key: Key): seq<Operation> {
    if key in m then m[key] else []
  }

  /** Operations that arrived under `key` and have not ended. */
  ghost predicate Members(c: Chains, key: Key, q: seq<Operation>) {
    && (forall i :: 0 <= i < |q| ==> q[i] in c.keys && c.keys[q[i]] == key && q[i] in c.previous && q[i] !in c.resolved)
    && (forall i, j :: 0 <= i < j < |q| ==> q[i] != q[j])
  }

  /** Each awaits the one before it; only the first may run. */
  ghost predicate Links(c: Chains, q: seq<Operation>)
    requires forall i :: 0 <= i < |q| ==> q[i] in c.previous
  {
    && (forall i :: 0 < i < |q| ==> c.previous[q[i]] == Some(q[i - 1]) && q[i] !in c.running)
    && (q != [] && c.previous[q[0]].Some? ==> c.previous[q[0]].value in c.resolved)
  }

  /** Operations begin in the order they arrived. */
  ghost predicate Ordered(c: Chains, key: Key, q: seq<Operation>) {
    At(c.arrived, key) == At(c.begun, key) + (if q != [] && q[0] in c.running then q[1..] else q)
  }

  ghost predicate Chain(c: Chains, key: Key) {
    var q := At(c.live, key);
    && (key in c.locks <==> q != [])
    && (q != [] ==> c.locks[key] == q[|q| - 1])
    && Members(c, key, q) && Links(c, q) && Ordered(c, key, q)
  }

  ghost predicate Valid(c: Chains) {
    && (forall key :: Chain(c, key))
    && (forall op :: op in c.keys && op !in c.resolved ==> op in At(c.live, c.keys[op]))
    && c.running <= c.keys.Keys - c.resolved && c.resolved <= c.keys.Keys && c.previous.Keys == c.keys.Keys
  }

  function Entered(c: Chains, op: Operation, key: Key): Chains {
    c.(previous := c.previous[op := if key in c.locks then Some(c.locks[key]) else None],
       locks := c.locks[key := op], keys := c.keys[op := key],
       live := c.live[key := At(c.live, key) + [op]], arrived := c.arrived[key := At(c.arrived, key) + [op]])
  }

  function Resumed(c: Chains, op: Operation): Chains
    requires op in c.keys
  {
    c.(running := c.running + {op}, begun := c.begun[c.keys[op] := At(c.begun, c.keys[op]) + [op]])
  }

  function Left(c: Chains, op: Operation): Chains
    requires op in c.keys && At(c.live, c.keys[op]) != []
  {
    var key := c.keys[op];
    c.(resolved := c.resolved + {op}, running := c.running - {op},
       locks := if key in c.locks && c.locks[key] == op then c.locks - {key} else c.locks,
       live := c.live[key := At(c.live, key)[1..]])
  }

  /** A chain is untouched by what happens to other operations. */
  lemma SameChain(c: Chains, d: Chains, k: Key)
    requires Chain(c, k) && (k in d.locks <==> k in c.locks) && (k in c.locks ==> d.locks[k] == c.locks[k])
    requires At(d.live, k) == At(c.live, k) && At(d.arrived, k) == At(c.arrived, k) && At(d.begun, k) == At(c.begun, k)
    requires forall o :: o in At(c.live, k) ==>
      o in d.keys && d.keys[o] == k && o in d.previous && d.previous[o] == c.previous[o]
      && o !in d.resolved && (o in d.running <==> o in c.running)
    requires c.resolved <= d.resolved
    ensures Chain(d, k)
  {
  }

  lemma MembersOf(c: Chains, k: Key)
    requires Valid(c)
    ensures Chain(c, k) && forall o :: o in At(c.live, k) ==>
      o in c.keys && c.keys[o] == k && o in c.previous && o !in c.resolved
  {
  }

  lemma EnterKeepsMembers(c: Chains, op: Operation, key: Key)
    requires Chain(c, key) && op !in c.keys && c.resolved <= c.keys.Keys
    ensures Members(Entered(c, op, key), key, At(c.live, key) + [op])
  {
  }

  lemma EnterKeepsLinks(c: Chains, op: Operation, key: Key)
    requires Chain(c, key) && op !in c.keys && c.running <= c.keys.Keys
    requires Members(Entered(c, op, key), key, At(c.live, key) + [op])
    ensures Links(Entered(c, op, key), At(c.live, key) + [op])
  {
  }

  lemma EnterKeepsChain(c: Chains, op: Operation, key: Key)
    requires Chain(c, key) && op !in c.keys && c.running <= c.keys.Keys && c.resolved <= c.keys.Keys
    ensures Chain(Entered(c, op, key), key)
  {
    hide Links, Members;
    EnterKeepsMembers(c, op, key);
    EnterKeepsLinks(c, op, key);
    var q := At(c.live, key);
    assert q != [] ==> (q + [op])[1..] == q[1..] + [op];
  }

  lemma EnterKeeps(c: Chains, op: Operation, key: Key)
    requires Valid(c) && op !in c.keys
    ensures Valid(Entered(c, op, key))
  {
    hide Chain;
    var d := Entered(c, op, key);
    forall k ensures Chain(d, k) {
      if k == key {
        EnterKeepsChain(c, op, key);
      } else {
        MembersOf(c, k);
        SameChain(c, d, k);
      }
    }
    forall o | o in d.keys && o !in d.resolved ensures o in At(d.live, d.keys[o]) {
      var q := At(c.live, key);
      assert (q + [op])[|q|] == op;
      assert o != op ==> o in At(c.live, c.keys[o]);
    }
  }

  /** An operation whose awaited promise is resolved is the oldest of its key that has not ended, and no
      other one of that key runs. */
  lemma FirstInChain(c: Chains, op: Operation)
    requires Valid(c) && op in c.keys && op !in c.resolved && op !in c.running
    requires c.previous[op].Some? ==> c.previous[op].value in c.resolved
    ensures var q := At(c.live, c.keys[op]); q != [] && q[0] == op
    ensures forall other :: other in c.running ==> c.keys[other] != c.keys[op]
  {
    var key := c.keys[op];
    var q := At(c.live, key);
    assert Chain(c, key);
    forall i | 0 < i < |q| ensures q[i] != op {
      assert q[i - 1] !in c.resolved && c.previous[q[i]] == Some(q[i - 1]);
    }
    forall other | other in c.running ensures c.keys[other] != key {
      assert other in At(c.live, c.keys[other]);
    }
  }

  lemma ResumeKeepsChain(c: Chains, op: Operation)
    requires op in c.keys && Chain(c, c.keys[op]) && op !in c.running
    requires var q := At(c.live, c.keys[op]); q != [] && q[0] == op
    ensures Chain(Resumed(c, op), c.keys[op]) && At(Resumed(c, op).begun, c.keys[op]) <= At(c.arrived, c.keys[op])
  {
  }

  lemma ResumeKeeps(c: Chains, op: Operation)
    requires Valid(c) && op in c.keys && op !in c.resolved && op !in c.running
    requires c.previous[op].Some? ==> c.previous[op].value in c.resolved
    ensures Valid(Resumed(c, op)) && At(Resumed(c, op).begun, c.keys[op]) <= At(c.arrived, c.keys[op])
  {
    FirstInChain(c, op);
    MembersOf(c, c.keys[op]);
    ResumeKeepsChain(c, op);
    var key := c.keys[op];
    var d := Resumed(c, op);
    forall k ensures Chain(d, k) {
      hide Chain;
      if k == key {
        ResumeKeepsChain(c, op);
      } else {
        MembersOf(c, k);
        SameChain(c, d, k);
      }
    }
  }

  lemma LeaveKeepsChain(c: Chains, op: Operation)
    requires op in c.keys && Chain(c, c.keys[op]) && op in c.running
    requires var q := At(c.live, c.keys[op]); q != [] && q[0] == op
    ensures Chain(Left(c, op), c.keys[op])
  {
  }

  lemma LeaveKeeps(c: Chains, op: Operation)
    requires Valid(c) && op in c.running
    ensures var q := At(c.live, c.keys[op]); q != [] && q[0] == op
    ensures Valid(Left(c, op))
  {
    var key := c.keys[op];
    var q := At(c.live, key);
    assert q != [] && q[0] == op by {
      assert Chain(c, key);
      var i :| 0 <= i < |q| && q[i] == op;
      assert i == 0;
    }
    var d := Left(c, op);
    forall k ensures Chain(d, k) {
      hide Chain;
      if k == key {
        LeaveKeepsChain(c, op);
      } else {
        MembersOf(c, k);
        SameChain(c, d, k);
      }
    }
    forall o | o in d.keys && o !in d.resolved ensures o in At(d.live, d.keys[o]) {
      hide Chain;
      assert o in At(c.live, c.keys[o]);
      if d.keys[o] == key {
        var m :| 0 <= m < |q| && q[m] == o;
        assert q[1..][m - 1] == o;
      }
    }
  }

  /** Per-key mutual exclusion. */
  lemma NeverTogether(c: Chains, a: Operation, b: Operation)
    requires Valid(c) && a in c.running && b in c.running && c.keys[a] == c.keys[b]
    ensures a == b
  {
    LeaveKeeps(c, a);
    LeaveKeeps(c, b);
  }

  /** The map holds a key exactly while some operation on it is running or waiting. */
  lemma HeldExactlyWhileUsed(c: Chains, key: Key)
    requires Valid(c)
    ensures key in c.locks <==> exists op :: op in c.keys && op !in c.resolved && c.keys[op] == key
  {
    var q := At(c.live, key);
    assert Chain(c, key);
    if key in c.locks {
      assert q[0] in c.keys && q[0] !in c.resolved && c.keys[q[0]] == key;
    }
  }

  /** Somebody waiting can always go on once the one in front has left: no chain is stuck. */
  lemma NobodyIsStuck(c: Chains, key: Key)
    requires Valid(c) && key in c.locks
    ensures exists op ::
      && op in c.keys && op !in c.resolved && c.keys[op] == key
      && (op in c.running || c.previous[op].None? || c.previous[op].value in c.resolved)
  {
    var q := At(c.live, key);
    assert Chain(c, key);
    assert q[0] in c.keys && q[0] !in c.resolved && c.keys[q[0]] == key;
  }

  class PromiseChains {
    var chains: Chains

    ghost predicate Ok() reads this { Valid(chains) }

    constructor ()
      ensures Ok() && chains.locks == map[]
    {
      chains := Chains(map[], map[], map[], {}, {}, map[], map[], map[]);
    }

    /** A call arrives: it joins the end of its key's chain. */
    method Enter(op: Operation, key: Key)
      requires Ok() && op !in chains.keys
      modifies this
      ensures Ok() && op in chains.keys && chains.keys[op] == key
      ensures chains.running == old(chains.running) && chains.resolved == old(chains.resolved)
      ensures At(chains.arrived, key) == old(At(chains.arrived, key)) + [op] && chains.begun == old(chains.begun)
    {
      EnterKeeps(chains, op, key);
      chains := Entered(chains, op, key);
    }

    /** The awaited promise is resolved, so the operation runs: alone under its key, and in order of arrival. */
    method Resume(op: Operation)
      requires Ok() && op in chains.keys && op !in chains.resolved && op !in chains.running
      requires chains.previous[op].Some? ==> chains.previous[op].value in chains.resolved
      modifies this
      ensures Ok() && chains.running == old(chains.running) + {op}
      ensures forall other :: other in old(chains.running) ==>
        other in chains.keys && chains.keys[other] != chains.keys[op]
      ensures var key := chains.keys[op];
        At(chains.begun, key) == old(At(chains.begun, chains.keys[op])) + [op]
        && At(chains.begun, key) <= At(chains.arrived, key)
    {
      FirstInChain(chains, op);
      ResumeKeeps(chains, op);
      chains := Resumed(chains, op);
    }

    /** The operation ends. Whether it returned or threw makes no difference to the chain: its successor may
        run, and the map forgets the key if nobody else uses it. */
    method Leave(op: Operation)
      requires Ok() && op in chains.running
      modifies this
      ensures Ok() && op in chains.resolved && chains.running == old(chains.running) - {op}
      ensures chains.keys == old(chains.keys)
      ensures chains.keys[op] in chains.locks <==> At(chains.live, chains.keys[op]) != []
      ensures old(At(chains.live, chains.keys[op])) == [op] + At(chains.live, chains.keys[op])
    {
      LeaveKeeps(chains, op);
      chains := Left(chains, op);
      assert Chain(chains, chains.keys[op]);
    }
  }
}
