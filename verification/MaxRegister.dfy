/** The pack-id registers shared by a session's connections: each connection raises the register
    to its pack's id by a loop of load and compare-exchange, and the loops interleave freely. */
module MaxRegister {

  /** `Loading(id)`: about to load; `Exchanging(id, curr)`: loaded `curr`, about to exchange. */
  datatype Phase = Idle | Loading(id: nat) | Exchanging(id: nat, curr: nat)

  /** `offered` are the ids of all loops begun, `done` those of the loops that ended. */
  datatype State = State(register: nat, loops: seq<Phase>, offered: set<nat>, done: set<nat>)

  function Initial(connections: nat): State {
    State(0, seq(connections, _ => Idle), {}, {})
  }

  datatype Action = Offer(c: nat, id: nat) | Load(c: nat) | Exchange(c: nat)

  predicate Enabled(s: State, a: Action) {
    && a.c < |s.loops|
    && match a
       case Offer(c, _) => s.loops[c].Idle?
       case Load(c) => s.loops[c].Loading?
       case Exchange(c) => s.loops[c].Exchanging?
  }

  function Apply(s: State, a: Action): State
    requires Enabled(s, a)
  {
    match a
    case Offer(c, id) => s.(loops := s.loops[c := Loading(id)], offered := s.offered + {id})
    case Load(c) =>
      var id := s.loops[c].id;
      if id <= s.register then s.(loops := s.loops[c := Idle], done := s.done + {id})
      else s.(loops := s.loops[c := Exchanging(id, s.register)])
    case Exchange(c) =>
      var Exchanging(id, curr) := s.loops[c];
      if s.register == curr then s.(register := id, loops := s.loops[c := Idle], done := s.done + {id})
      else s.(loops := s.loops[c := Loading(id)])
  }

  ghost predicate Runs(s: State, acts: seq<Action>, t: State)
    decreases acts
  {
    if acts == [] then s == t
    else Enabled(s, acts[0]) && Runs(Apply(s, acts[0]), acts[1..], t)
  }

  /** Some loop is still raising the register to `id`. */
  ghost predicate Pending(s: State, id: nat) {
    exists c :: 0 <= c < |s.loops| && !s.loops[c].Idle? && s.loops[c].id == id
  }

  ghost predicate Inv(s: State) {
    && (s.register == 0 || s.register in s.offered)
    && (forall id <- s.done :: id <= s.register)
    && (forall id <- s.offered :: id in s.done || Pending(s, id))
    && (forall c :: 0 <= c < |s.loops| && !s.loops[c].Idle? ==> s.loops[c].id in s.offered)
    && (forall c :: 0 <= c < |s.loops| && s.loops[c].Exchanging? ==>
          s.loops[c].curr <= s.register && s.loops[c].curr < s.loops[c].id)
  }

  lemma ApplyKeepsInv(s: State, a: Action)
    requires Inv(s) && Enabled(s, a)
    ensures Inv(Apply(s, a)) && s.register <= Apply(s, a).register
  {
    var t := Apply(s, a);
    assert !t.loops[a.c].Idle? ==> Pending(t, t.loops[a.c].id);
    forall id | id in t.offered ensures id in t.done || Pending(t, id) {
      if id in s.offered && id !in s.done {
        var c :| 0 <= c < |s.loops| && !s.loops[c].Idle? && s.loops[c].id == id;
        assert c != a.c ==> t.loops[c] == s.loops[c];
      }
    }
  }

  /** The register never goes down, in any run. */
  lemma {:induction false} NeverDecreases(s: State, acts: seq<Action>, t: State)
    requires Inv(s) && Runs(s, acts, t)
    ensures Inv(t) && s.register <= t.register
    decreases acts
  {
    if acts == [] {
    } else {
      ApplyKeepsInv(s, acts[0]);
      NeverDecreases(Apply(s, acts[0]), acts[1..], t);
    }
  }

  /** A connection whose loop has ended finds its id reached, and nothing but offered ids is ever
      stored; once no loop runs, the register is the greatest id offered. */
  lemma HoldsMaximum(connections: nat, acts: seq<Action>, t: State)
    requires Runs(Initial(connections), acts, t)
    ensures t.register == 0 || t.register in t.offered
    ensures forall id <- t.done :: id <= t.register
    ensures (forall c :: 0 <= c < |t.loops| ==> t.loops[c].Idle?) ==> forall id <- t.offered :: id <= t.register
  {
    NeverDecreases(Initial(connections), acts, t);
  }

  // ----- the loops end -----

  /** A lost exchange costs the loop at least one id of the distance it had to go. */
  function PhaseWork(p: Phase, register: nat): nat {
    match p
    case Idle => 0
    case Loading(id) => 1 + 2 * (if id <= register then 0 else id - register)
    case Exchanging(id, curr) => 2 * (if id <= curr then 0 else id - curr)
  }

  function Work(loops: seq<Phase>, register: nat): nat {
    if loops == [] then 0 else PhaseWork(loops[0], register) + Work(loops[1..], register)
  }

  lemma {:induction false} RaisingHelps(loops: seq<Phase>, lower: nat, higher: nat)
    requires lower <= higher
    ensures Work(loops, higher) <= Work(loops, lower)
  {
    if loops == [] {
    } else {
      RaisingHelps(loops[1..], lower, higher);
    }
  }

  lemma {:induction false} WorkUpdate(loops: seq<Phase>, c: nat, p: Phase, register: nat)
    requires c < |loops|
    ensures Work(loops[c := p], register) + PhaseWork(loops[c], register)
            == Work(loops, register) + PhaseWork(p, register)
  {
    if c == 0 {
      assert loops[c := p][1..] == loops[1..];
    } else {
      assert loops[c := p][1..] == loops[1..][c - 1 := p];
      WorkUpdate(loops[1..], c - 1, p, register);
    }
  }

  lemma StepSpendsWork(s: State, a: Action)
    requires Inv(s) && Enabled(s, a) && !a.Offer?
    ensures var t := Apply(s, a); Work(t.loops, t.register) < Work(s.loops, s.register)
  {
    var t := Apply(s, a);
    WorkUpdate(s.loops, a.c, t.loops[a.c], s.register);
    RaisingHelps(t.loops, s.register, t.register);
  }

  /** No livelock: without new offers, the loops together take no more steps than the work they
      began with, however they interfere. */
  lemma {:induction false} LoopsEnd(s: State, acts: seq<Action>, t: State)
    requires Inv(s) && Runs(s, acts, t) && forall a <- acts :: !a.Offer?
    ensures |acts| + Work(t.loops, t.register) <= Work(s.loops, s.register)
    decreases acts
  {
    if acts == [] {
    } else {
      assert acts[0] in acts;
      ApplyKeepsInv(s, acts[0]);
      StepSpendsWork(s, acts[0]);
      LoopsEnd(Apply(s, acts[0]), acts[1..], t);
    }
  }

  // ----- one connection's loop -----

  class Register {
    var value: nat

    constructor ()
      ensures value == 0
    {
      value := 0;
    }

    /** Exchanges of other connections: each can only raise the register, to an id of theirs. */
    method Meanwhile(others: seq<nat>) returns (rest: seq<nat>)
      modifies this
      ensures old(value) <= value && (value == old(value) || value in others)
      ensures forall id <- rest :: id in others
    {
      rest := others;
      var n :| 0 <= n <= |others|;
      while n > 0
        invariant n <= |rest| && old(value) <= value && (value == old(value) || value in others)
        invariant forall id <- rest :: id in others
      {
        if value < rest[0] { value := rest[0]; }
        rest, n := rest[1..], n - 1;
      }
    }

    method CompareExchange(curr: nat, id: nat) returns (ok: bool)
      modifies this
      ensures ok == (old(value) == curr)
      ensures value == if ok then id else old(value)
    {
      ok := value == curr;
      if ok { value := id; }
    }

    /** Raises the register to at least `id` and stores nothing but an id of its own or of the
        others, whatever they do between the load and the exchange. */
    method Raise(id: nat, others: seq<nat>)
      modifies this
      ensures id <= value && old(value) <= value
      ensures value == old(value) || value == id || value in others
      ensures others == [] ==> value == if id <= old(value) then old(value) else id
    {
      var rest := others;
      while true
        invariant old(value) <= value && (value == old(value) || value in others)
        invariant forall x <- rest :: x in others
        decreases if value < id then id - value else 0
      {
        var curr := value;
        if id <= curr { return; }
        rest := Meanwhile(rest);
        var ok := CompareExchange(curr, id);
        if ok { return; }
      }
    }
  }
}
