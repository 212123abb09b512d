/** The counted handle `PeerStreamToPeerClientTx`: connections attach to a peer client by
    cloning it, and the channel into the peer client closes with the last clone.  `live` is
    the set of clones alive; the owning context's own handle is not counted. */
module Attachment {

  datatype State = State(refCount: int, live: set<nat>, isClose: bool)

  const INITIAL := State(0, {}, false)

  datatype Action = Attach(handle: nat) | Drop(handle: nat) | Close

  /** Attaching is guarded by the `is_close` flag, whose lock is held until the clone exists. */
  predicate Enabled(s: State, a: Action) {
    match a
    case Attach(h) => !s.isClose && h !in s.live
    case Drop(h) => h in s.live
    case Close => true
  }

  function Apply(s: State, a: Action): State
    requires Enabled(s, a)
  {
    match a
    case Attach(h) => s.(refCount := s.refCount + 1, live := s.live + {h})
    case Drop(h) => State(s.refCount - 1, s.live - {h}, s.isClose || s.refCount == 1)
    case Close => s.(isClose := true)
  }

  ghost predicate Runs(s: State, acts: seq<Action>, t: State)
    decreases acts
  {
    if acts == [] then s == t
    else Enabled(s, acts[0]) && Runs(Apply(s, acts[0]), acts[1..], t)
  }

  ghost predicate Inv(s: State) {
    s.refCount == |s.live|
  }

  lemma StepKeepsInv(s: State, a: Action)
    requires Inv(s) && Enabled(s, a)
    ensures Inv(Apply(s, a))
    ensures a.Drop? && Apply(s, a).live == {} ==> Apply(s, a).isClose
    ensures !a.Close? && Apply(s, a).live != {} ==> Apply(s, a).isClose == s.isClose
  {
    if a.Drop? {
      assert s.live == Apply(s, a).live + {a.handle};
    }
  }

  /** In every interleaving of attach, drop and close: the count is the number of live clones;
      once closed the channel stays closed and no clone is added; and a channel that was open
      and closes without an explicit close has just lost its last clone. */
  lemma {:induction false} CountIsLive(s: State, acts: seq<Action>, t: State)
    requires Inv(s) && Runs(s, acts, t)
    ensures Inv(t)
    ensures s.isClose ==> t.isClose && t.live <= s.live
    ensures !s.isClose && t.isClose && Close !in acts ==> t.live == {}
    ensures s.live != {} && t.live == {} ==> t.isClose
    decreases acts
  {
    if acts == [] {
    } else {
      var mid := Apply(s, acts[0]);
      StepKeepsInv(s, acts[0]);
      CountIsLive(mid, acts[1..], t);
      assert Close !in acts ==> Close !in acts[1..];
      assert acts[0] in acts;
    }
  }

  class AttachPoint {
    var refCount: int
    var isClose: bool
    ghost var live: set<nat>

    constructor ()
      ensures Model() == INITIAL
    {
      refCount, isClose, live := 0, false, {};
    }

    ghost function Model(): State
      reads this
    {
      State(refCount, live, isClose)
    }

    /** `hello_to_peer_stream` and `do_stream`: refused once closed. */
    method TryAttach(ghost handle: nat) returns (ok: bool)
      requires handle !in live
      modifies this
      ensures ok == !old(isClose)
      ensures ok ==> Model() == Apply(old(Model()), Attach(handle))
      ensures !ok ==> unchanged(this)
    {
      if isClose {
        return false;
      }
      refCount := refCount + 1;
      live := live + {handle};
      ok := true;
    }

    method DropHandle(ghost handle: nat)
      requires handle in live
      modifies this
      ensures Model() == Apply(old(Model()), Drop(handle))
    {
      refCount := refCount - 1;
      live := live - {handle};
      if refCount == 0 {
        isClose := true;
      }
    }
  }
}
