/** The client's pool of idle connections, and the life of a connection around it: created or
    taken from the pool, greeted, used by a session, put back or lost. */
module ConnectionPool {
  import opened Basics

  /** The address a connection leads to. */
  datatype Key = Key(text: string)

  /** An idle connection and the second it was put in. */
  datatype Entry = Entry(conn: nat, time: int)

  /** `closed` are the connections whose command channel is closed. */
  datatype Pool = Pool(values: map<Key, seq<Entry>>, closed: set<nat>)

  const TRIM_TURNS: nat := 5
  const IDLE_SECONDS: int := 10

  function Conns(v: seq<Entry>): set<nat> {
    set e <- v :: e.conn
  }

  /** Entry `i` would be trimmed once those before it are. */
  predicate Stale(v: seq<Entry>, closed: set<nat>, now: int, i: nat)
    requires i < |v|
  {
    now - v[i].time > IDLE_SECONDS || v[i].conn in closed || v[i].conn in Conns(v[..i])
  }

  /** Trimming drops exactly `k` entries: the stale ones at the front, at most five. */
  ghost predicate Trims(v: seq<Entry>, closed: set<nat>, now: int, k: nat) {
    && k <= TRIM_TURNS && k <= |v|
    && (forall i :: 0 <= i < k ==> Stale(v, closed, now, i))
    && (k < TRIM_TURNS && k < |v| ==> !Stale(v, closed, now, k))
  }

  /** The pool with the first `k` entries of `v` dropped and closed. */
  function Dropped(p: Pool, key: Key, v: seq<Entry>, k: nat): Pool
    requires k <= |v|
  {
    Pool(p.values[key := v[k..]], p.closed + Conns(v[..k]))
  }

  /** `v` becomes the entries of `key`, trimmed if they are more than `size`. */
  ghost predicate Settles(p: Pool, key: Key, v: seq<Entry>, size: nat, now: int, p': Pool) {
    if |v| > size then exists k: nat :: Trims(v, p.closed, now, k) && p' == Dropped(p, key, v, k)
    else p' == p.(values := p.values[key := v])
  }

  /** What `key` held before does not matter. */
  lemma SettlesAnew(p: Pool, q: Pool, key: Key, v: seq<Entry>, size: nat, now: int, p': Pool)
    requires q == p.(values := p.values[key := v]) && Settles(q, key, v, size, now, p')
    ensures Settles(p, key, v, size, now, p')
  {
    if |v| > size {
      var k: nat :| Trims(v, q.closed, now, k) && p' == Dropped(q, key, v, k);
      assert Dropped(q, key, v, k) == Dropped(p, key, v, k);
    }
  }

  /** `add_peer_stream_key`. */
  ghost predicate Adds(p: Pool, key: Key, conn: nat, size: nat, now: int, p': Pool) {
    if size == 0 then p' == p.(closed := p.closed + {conn})
    else if key !in p.values then p' == p.(values := p.values[key := [Entry(conn, now)]])
    else Settles(p, key, p.values[key] + [Entry(conn, now)], size, now, p')
  }

  /** Entry `k` of `v` is the first whose connection is open. */
  ghost predicate FirstOpen(v: seq<Entry>, closed: set<nat>, k: nat) {
    && k < |v| && v[k].conn !in closed
    && (forall i :: 0 <= i < k ==> v[i].conn in closed)
  }

  /** `get_peer_stream_key`. */
  ghost predicate Gets(p: Pool, key: Key, size: nat, now: int, p': Pool, r: Option<nat>) {
    if size == 0 || key !in p.values then p' == p && r == None
    else
      var v := p.values[key];
      if forall i :: 0 <= i < |v| ==> v[i].conn in p.closed then
        p' == p.(values := p.values[key := []]) && r == None
      else
        exists k: nat :: FirstOpen(v, p.closed, k) && r == Some(v[k].conn)
                    && Settles(p, key, v[k + 1..], size, now, p')
  }

  /** What trimming to `size` leaves of `v`: a suffix.  What is gone, at most five entries, had been
      idle for more than 10 seconds, was closed, or was listed twice; and unless five are gone, what
      is at the front now has neither been idle so long nor is it closed. */
  ghost predicate Trimmed(v: seq<Entry>, closed: set<nat>, size: nat, now: int, m: nat, left: seq<Entry>) {
    && m <= |v| && m <= 5 && left == v[m..] && (|v| <= size ==> m == 0)
    && (forall j :: 0 <= j < m ==> now - v[j].time > 10 || v[j].conn in closed || v[j].conn in Conns(v[..j]))
    && (|v| > size && m < 5 && left != [] ==> now - left[0].time <= 10 && left[0].conn !in closed)
  }

  lemma SettlesMeans(p: Pool, key: Key, v: seq<Entry>, size: nat, now: int, p': Pool) returns (m: nat)
    requires Settles(p, key, v, size, now, p')
    ensures key in p'.values && p'.values == p.values[key := p'.values[key]]
    ensures Trimmed(v, p.closed, size, now, m, p'.values[key]) && p'.closed == p.closed + Conns(v[..m])
  {
    if |v| > size {
      var k: nat :| Trims(v, p.closed, now, k) && p' == Dropped(p, key, v, k);
      m := k;
      forall j | 0 <= j < m
        ensures now - v[j].time > 10 || v[j].conn in p.closed || v[j].conn in Conns(v[..j])
      {
        assert Stale(v, p.closed, now, j);
      }
    } else {
      m := 0;
      assert v[..0] == [] && Conns(v[..0]) == {} && v[0..] == v;
    }
  }

  /** First in, first out: a key with an open entry yields the oldest one, and only the entries
      before it and trimmed ones behind it are gone; a key without one, or size 0, yields none. */
  lemma GetsMeans(p: Pool, key: Key, size: nat, now: int, p': Pool, r: Option<nat>) returns (k: nat, m: nat)
    requires Gets(p, key, size, now, p', r)
    ensures r.Some? <==> size > 0 && key in p.values
                         && exists i :: 0 <= i < |p.values[key]| && p.values[key][i].conn !in p.closed
    ensures r.Some? ==>
              var v := p.values[key];
              && k < |v| && v[k].conn == r.value && r.value !in p.closed
              && (forall i :: 0 <= i < k ==> v[i].conn in p.closed)
              && key in p'.values && Trimmed(v[k + 1..], p.closed, size, now, m, p'.values[key])
              && p'.closed == p.closed + Conns(v[k + 1..][..m])
    ensures forall other <- p.values :: other != key ==> other in p'.values && p'.values[other] == p.values[other]
  {
    hide Settles, Trimmed;
    k, m := 0, 0;
    if r.Some? {
      var v := p.values[key];
      k :| FirstOpen(v, p.closed, k) && r == Some(v[k].conn) && Settles(p, key, v[k + 1..], size, now, p');
      m := SettlesMeans(p, key, v[k + 1..], size, now, p');
    }
  }

  /** A connection put back is the last of its key, unless it was trimmed with all before it; with
      size 0 it is closed and not kept. */
  lemma AddsMeans(p: Pool, key: Key, conn: nat, size: nat, now: int, p': Pool) returns (m: nat)
    requires Adds(p, key, conn, size, now, p')
    ensures size == 0 ==> p'.values == p.values && p'.closed == p.closed + {conn}
    ensures size > 0 ==>
              var v := (if key in p.values then p.values[key] else []) + [Entry(conn, now)];
              && key in p'.values && Trimmed(v, p.closed, size, now, m, p'.values[key])
              && p'.closed == p.closed + Conns(v[..m])
    ensures forall other <- p.values :: other != key ==> other in p'.values && p'.values[other] == p.values[other]
  {
    m := 0;
    if size > 0 {
      if key in p.values {
        m := SettlesMeans(p, key, p.values[key] + [Entry(conn, now)], size, now, p');
      } else {
        var v := [] + [Entry(conn, now)];
        assert v[..0] == [] && Conns([]) == {} && v[0..] == [Entry(conn, now)];
      }
    }
  }

  class ClientContext {
    var values: map<Key, seq<Entry>>
    /** The command channels' own state. */
    var closed: set<nat>

    ghost function Value(): Pool
      reads this
    {
      Pool(values, closed)
    }

    constructor ()
      ensures Value() == Pool(map[], {})
    {
      values, closed := map[], {};
    }

    /** The trim loop of both operations. */
    method Trim(key: Key, now: int) returns (ghost k: nat)
      requires key in values
      modifies this
      ensures Trims(old(values)[key], old(closed), now, k)
      ensures Value() == Dropped(old(Value()), key, old(values)[key], k)
    {
      ghost var v := values[key];
      k := 0;
      var turn := 0;
      while turn < TRIM_TURNS
        invariant k == turn <= TRIM_TURNS && k <= |v| && key in values
        invariant Value() == Dropped(old(Value()), key, v, k)
        invariant forall i :: 0 <= i < k ==> Stale(v, old(closed), now, i)
      {
        var front := values[key];
        if front == [] { break; }
        if !(now - front[0].time > IDLE_SECONDS || front[0].conn in closed) { break; }
        assert v[..k + 1] == v[..k] + [v[k]];
        values := values[key := front[1..]];
        closed := closed + {front[0].conn};
        k, turn := k + 1, turn + 1;
      }
    }

    method Settle(key: Key, size: nat, now: int)
      requires key in values
      modifies this
      ensures Settles(old(Value()), key, old(values)[key], size, now, Value())
    {
      if |values[key]| > size {
        ghost var k := Trim(key, now);
      } else {
        assert values[key := values[key]] == values;
      }
    }

    method AddPeerStreamKey(key: Key, conn: nat, size: nat, now: int)
      modifies this
      ensures Adds(old(Value()), key, conn, size, now, Value())
    {
      if size == 0 {
        closed := closed + {conn};
        return;
      }
      if key !in values {
        values := values[key := [Entry(conn, now)]];
        return;
      }
      values := values[key := values[key] + [Entry(conn, now)]];
      ghost var pushed := Value();
      Settle(key, size, now);
      SettlesAnew(old(Value()), pushed, key, pushed.values[key], size, now, Value());
    }

    method GetPeerStreamKey(key: Key, size: nat, now: int) returns (r: Option<nat>)
      modifies this
      ensures Gets(old(Value()), key, size, now, Value(), r)
    {
      hide Settles;
      hide Dropped;
      if size == 0 || key !in values { return None; }
      ghost var v, k := values[key], 0;
      while true
        invariant key in values && k <= |v|
        invariant Value() == old(Value()).(values := old(values)[key := v[k..]])
        invariant forall i :: 0 <= i < k ==> v[i].conn in closed
        decreases |v| - k
      {
        if values[key] == [] { return None; }
        var conn := values[key][0].conn;
        values := values[key := values[key][1..]];
        if conn in closed {
          k := k + 1;
          continue;
        }
        ghost var popped := Value();
        Settle(key, size, now);
        SettlesAnew(old(Value()), popped, key, v[k + 1..], size, now, Value());
        assert FirstOpen(v, old(closed), k) && conn == v[k].conn;
        return Some(conn);
      }
    }
  }
}
