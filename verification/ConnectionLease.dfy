/** Who owns a connection: the pool, a client that is about to greet it, or a session; over every
    run of the client's operations. */
module ConnectionLease {
  import opened Basics
  import opened ConnectionPool

  /** `keys[c]` is the key of connection `c`; `leased` are taken and not yet greeted, `busy` are in
      a session. */
  datatype System = System(pool: Pool, keys: seq<Key>, leased: set<nat>, busy: set<nat>)

  const INITIAL := System(Pool(map[], {}), [], {}, {})

  /** `size` is the pool's size setting, `now` the clock. */
  datatype Action =
    | Lease(key: Key, size: nat, now: int)
    | Create(key: Key)
    | HelloSent(conn: nat)
    | HelloFailed(conn: nat, size: nat, now: int)
    | SessionDone(conn: nat, size: nat, now: int)
    | SessionFailed(conn: nat)
    | IdleFailed(conn: nat)

  ghost predicate PutBack(s: System, conn: nat, size: nat, now: int, t: System)
    requires conn < |s.keys|
  {
    && Adds(s.pool, s.keys[conn], conn, size, now, t.pool)
    && t == s.(pool := t.pool, leased := s.leased - {conn}, busy := s.busy - {conn})
  }

  ghost predicate Next(s: System, a: Action, t: System) {
    match a
    case Lease(key, size, now) =>
      exists r :: Gets(s.pool, key, size, now, t.pool, r)
                  && t == s.(pool := t.pool, leased := if r.Some? then s.leased + {r.value} else s.leased)
    case Create(key) => t == s.(keys := s.keys + [key], leased := s.leased + {|s.keys|})
    case HelloSent(c) =>
      c in s.leased && c !in s.pool.closed && t == s.(leased := s.leased - {c}, busy := s.busy + {c})
    case HelloFailed(c, size, now) => c in s.leased && c < |s.keys| && PutBack(s, c, size, now, t)
    case SessionDone(c, size, now) => c in s.busy && c < |s.keys| && PutBack(s, c, size, now, t)
    case SessionFailed(c) =>
      c in s.busy && t == s.(busy := s.busy - {c}, pool := s.pool.(closed := s.pool.closed + {c}))
    case IdleFailed(c) => c !in s.busy && t == s.(pool := s.pool.(closed := s.pool.closed + {c}))
  }

  ghost predicate Run(ss: seq<System>, acts: seq<Action>) {
    && |ss| == |acts| + 1 && ss[0] == INITIAL
    && forall i :: 0 <= i < |acts| ==> Next(ss[i], acts[i], ss[i + 1])
  }

  /** The entries of one key: distinct connections of that key, none of them in use. */
  ghost predicate Exclusive(s: System, key: Key, v: seq<Entry>) {
    && (forall i :: 0 <= i < |v| ==>
          && v[i].conn < |s.keys| && s.keys[v[i].conn] == key
          && v[i].conn !in s.leased && v[i].conn !in s.busy)
    && (forall i, j :: 0 <= i < j < |v| ==> v[i].conn != v[j].conn)
  }

  /** Everything but the entries of `key`. */
  ghost predicate InvBeside(s: System, key: Key) {
    && s.leased !! s.busy
    && (forall c <- s.leased + s.busy :: c < |s.keys|)
    && (forall k <- s.pool.values :: k != key ==> Exclusive(s, k, s.pool.values[k]))
  }

  ghost predicate Inv(s: System) {
    && s.leased !! s.busy
    && (forall c <- s.leased + s.busy :: c < |s.keys|)
    && (forall key <- s.pool.values :: Exclusive(s, key, s.pool.values[key]))
  }

  lemma SettledKeepsInv(s: System, key: Key, v: seq<Entry>, size: nat, now: int, p: Pool)
    requires InvBeside(s, key) && Exclusive(s, key, v) && Settles(s.pool, key, v, size, now, p)
    ensures Inv(s.(pool := p))
  {
    var t := s.(pool := p);
    forall k | k in p.values ensures Exclusive(t, k, p.values[k]) {
      if k != key {
        assert p.values[k] == s.pool.values[k] && Exclusive(s, k, s.pool.values[k]);
      }
    }
  }

  /** A connection held by a client or a session goes back to the pool. */
  lemma PutBackKeepsInv(s: System, c: nat, size: nat, now: int, t: System)
    requires Inv(s) && c in s.leased + s.busy && c < |s.keys| && PutBack(s, c, size, now, t)
    ensures Inv(t)
  {
    var key := s.keys[c];
    var free := s.(leased := s.leased - {c}, busy := s.busy - {c});
    forall k | k in s.pool.values ensures Exclusive(free, k, s.pool.values[k]) {
      assert Exclusive(s, k, s.pool.values[k]);
    }
    if size > 0 {
      var v := (if key in s.pool.values then s.pool.values[key] else []) + [Entry(c, now)];
      assert Exclusive(free, key, v);
      if key in s.pool.values {
        SettledKeepsInv(free, key, v, size, now, t.pool);
      }
    }
  }

  lemma HoldKeepsOthers(s: System, key: Key, v: seq<Entry>, k: nat)
    requires Inv(s) && Exclusive(s, key, v) && k < |v|
    ensures var held := s.(leased := s.leased + {v[k].conn});
            InvBeside(held, key) && Exclusive(held, key, v[k + 1..])
  {
    var held := s.(leased := s.leased + {v[k].conn});
    forall other | other in s.pool.values && other != key ensures Exclusive(held, other, s.pool.values[other]) {
      assert Exclusive(s, other, s.pool.values[other]);
    }
  }

  /** What a successful lease takes: open when popped, of the right key, in nobody's hands. */
  lemma LeaseTakes(s: System, key: Key, size: nat, now: int, p: Pool, c: nat)
    requires Inv(s) && Gets(s.pool, key, size, now, p, Some(c))
    ensures c !in s.pool.closed && c < |s.keys| && s.keys[c] == key && c !in s.leased && c !in s.busy
    ensures Inv(s.(pool := p, leased := s.leased + {c}))
  {
    hide Settles;
    var v := s.pool.values[key];
    assert Exclusive(s, key, v);
    var k: nat :| FirstOpen(v, s.pool.closed, k) && c == v[k].conn && Settles(s.pool, key, v[k + 1..], size, now, p);
    HoldKeepsOthers(s, key, v, k);
    SettledKeepsInv(s.(leased := s.leased + {c}), key, v[k + 1..], size, now, p);
  }

  lemma NextKeepsInv(s: System, a: Action, t: System)
    requires Inv(s) && Next(s, a, t)
    ensures Inv(t)
  {
    match a
    case Lease(key, size, now) =>
      var r :| Gets(s.pool, key, size, now, t.pool, r)
               && t == s.(pool := t.pool, leased := if r.Some? then s.leased + {r.value} else s.leased);
      if r.Some? {
        LeaseTakes(s, key, size, now, t.pool, r.value);
      } else {
        forall k | k in t.pool.values ensures Exclusive(t, k, t.pool.values[k]) {
          assert Exclusive(s, k, s.pool.values[k]);
        }
      }
    case HelloFailed(c, size, now) => PutBackKeepsInv(s, c, size, now, t);
    case SessionDone(c, size, now) => PutBackKeepsInv(s, c, size, now, t);
    case _ =>
      forall k | k in t.pool.values ensures Exclusive(t, k, t.pool.values[k]) {
        assert Exclusive(s, k, s.pool.values[k]);
      }
  }

  lemma {:induction false} RunKeepsInv(ss: seq<System>, acts: seq<Action>, n: nat)
    requires Run(ss, acts) && n <= |acts|
    ensures Inv(ss[n])
  {
    if n == 0 {
    } else {
      RunKeepsInv(ss, acts, n - 1);
      NextKeepsInv(ss[n - 1], acts[n - 1], ss[n]);
    }
  }

  /** At every point of every run: no connection is in the pool twice, under any keys; none in the
      pool is held by a client or used by a session; none is held and used at once. */
  lemma PoolExclusive(ss: seq<System>, acts: seq<Action>, n: nat)
    requires Run(ss, acts) && n <= |acts|
    ensures forall k1, i, k2, j |
              k1 in ss[n].pool.values && k2 in ss[n].pool.values
              && 0 <= i < |ss[n].pool.values[k1]| && 0 <= j < |ss[n].pool.values[k2]|
              && ss[n].pool.values[k1][i].conn == ss[n].pool.values[k2][j].conn :: k1 == k2 && i == j
    ensures forall k, i :: k in ss[n].pool.values && 0 <= i < |ss[n].pool.values[k]| ==>
              ss[n].pool.values[k][i].conn !in ss[n].leased + ss[n].busy
    ensures ss[n].leased !! ss[n].busy
  {
    RunKeepsInv(ss, acts, n);
    var s := ss[n];
    forall k1, i, k2, j |
      && k1 in s.pool.values && k2 in s.pool.values
      && 0 <= i < |s.pool.values[k1]| && 0 <= j < |s.pool.values[k2]|
      && s.pool.values[k1][i].conn == s.pool.values[k2][j].conn
      ensures k1 == k2 && i == j
    {
      assert Exclusive(s, k1, s.pool.values[k1]) && Exclusive(s, k2, s.pool.values[k2]);
    }
  }

  /** Whatever `get_peer_stream_key` hands out in a run was open when popped and in nobody's hands. */
  lemma LeaseIsOpen(ss: seq<System>, acts: seq<Action>, n: nat, c: nat)
    requires Run(ss, acts) && n < |acts| && acts[n].Lease?
    requires c in ss[n + 1].leased && c !in ss[n].leased
    ensures c !in ss[n].pool.closed && c !in ss[n].busy
    ensures c < |ss[n].keys| && ss[n].keys[c] == acts[n].key
  {
    RunKeepsInv(ss, acts, n);
    var s, t := ss[n], ss[n + 1];
    var Lease(key, size, now) := acts[n];
    assert Next(s, acts[n], t);
    LeaseTakes(s, key, size, now, t.pool, c);
  }
}
