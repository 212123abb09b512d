/** The round: as many writes as there are connections in it, with nothing between them, deal one
    pack to each. */
module StripingRound {
  import opened Basics
  import opened Striping

  function Writes(datas: seq<Bytes>): (r: seq<Action>)
    ensures |r| == |datas| && forall i :: 0 <= i < |r| ==> r[i] == Write(datas[i])
  {
    seq(|datas|, i requires 0 <= i < |datas| => Write(datas[i]))
  }

  lemma ModOfSum(index: nat, j: nat, n: nat)
    requires j < n
    ensures (index + j) % n == if index % n + j < n then index % n + j else index % n + j - n
  {
    var q, r := index / n, index % n;
    if r + j < n {
      QuotientOf(index + j, q, r + j, n);
    } else {
      assert (q + 1) * n == q * n + n;
      QuotientOf(index + j, q + 1, r + j - n, n);
    }
  }

  /** The position that the `j`-th write from now goes to. */
  function Pos(index: nat, j: nat, n: nat): nat
    requires n > 0
  {
    (index + j) % n
  }

  lemma PosFacts(index: nat, j: nat, n: nat)
    requires n > 0
    ensures Pos(index, 0, n) == index % n && Pos(index + 1, j, n) == Pos(index, j + 1, n)
    ensures 0 < j < n ==> Pos(index, j, n) != index % n
  {
    if 0 < j < n {
      ModOfSum(index, j, n);
    }
  }

  /** Position `i` of the round is among those of the next `m` writes. */
  ghost predicate Next(index: nat, m: nat, n: nat, i: nat)
    requires n > 0
  {
    exists j: nat :: j < m && Pos(index, j, n) == i
  }

  lemma NextFirst(index: nat, m: nat, n: nat, i: nat)
    requires 0 < m <= n
    ensures Next(index, m, n, i) <==> i == index % n || Next(index + 1, m - 1, n, i)
    ensures !Next(index + 1, m - 1, n, index % n)
  {
    hide Pos;
    PosFacts(index, 0, n);
    var next := index + 1;
    forall j: nat ensures Pos(next, j, n) == Pos(index, j + 1, n) {
      PosFacts(index, j, n);
    }
    if Next(index + 1, m - 1, n, i) {
      var j: nat :| j < m - 1 && Pos(next, j, n) == i;
      assert Pos(index, j + 1, n) == i;
    }
    if Next(index, m, n, i) && i != index % n {
      var j: nat :| j < m && Pos(index, j, n) == i;
      assert Pos(next, j - 1, n) == i;
    }
    forall j: nat | j < m - 1 ensures Pos(next, j, n) != index % n {
      PosFacts(index, j + 1, n);
    }
  }

  lemma AllNext(index: nat, n: nat, i: nat)
    requires i < n
    ensures Next(index, n, n, i)
  {
    var r := index % n;
    var j := if i >= r then i - r else i - r + n;
    ModOfSum(index, j, n);
    assert Pos(index, j, n) == i;
  }

  function OneIf(b: bool): nat {
    if b then 1 else 0
  }

  lemma {:induction false} WritesDeal(s: State, datas: seq<Bytes>, t: State)
    requires Connections(s) && s.senders != [] && |datas| <= |s.senders| && Runs(s, Writes(datas), t)
    requires s.txPackId == |s.written| && |s.written| + |datas| < ID_MODULUS
    ensures t.senders == s.senders && |t.conns| == |s.conns|
    ensures forall i :: 0 <= i < |s.senders| ==>
              |t.conns[s.senders[i]].queue|
              == |s.conns[s.senders[i]].queue| + OneIf(Next(s.index, |datas|, |s.senders|, i))
    decreases |datas|
  {
    var n := |s.senders|;
    if datas == [] {
    } else {
      var mid := Apply(s, Write(datas[0]));
      assert Writes(datas)[0] == Write(datas[0]) && Writes(datas)[1..] == Writes(datas[1..]);
      QueueKeepsConnections(s, Write(datas[0]));
      WritesDeal(mid, datas[1..], t);
      forall i | 0 <= i < n
        ensures |t.conns[s.senders[i]].queue|
                == |s.conns[s.senders[i]].queue| + OneIf(Next(s.index, |datas|, n, i))
      {
        NextFirst(s.index, |datas|, n, i);
        assert i != s.index % n ==> s.senders[i] != s.senders[s.index % n];
      }
    }
  }

  /** One write for each connection in the round, and each has one pack more. */
  lemma RoundDealsToAll(s: State, datas: seq<Bytes>, t: State)
    requires Connections(s) && s.senders != [] && |datas| == |s.senders| && Runs(s, Writes(datas), t)
    requires s.txPackId == |s.written| && |s.written| + |datas| < ID_MODULUS
    ensures |t.conns| == |s.conns|
    ensures forall i :: 0 <= i < |s.senders| ==>
              |t.conns[s.senders[i]].queue| == |s.conns[s.senders[i]].queue| + 1
  {
    WritesDeal(s, datas, t);
    forall i | 0 <= i < |s.senders|
      ensures |t.conns[s.senders[i]].queue| == |s.conns[s.senders[i]].queue| + 1
    {
      AllNext(s.index, |s.senders|, i);
    }
  }
}
