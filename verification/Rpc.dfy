// agent/ops/rpc.py: an endpoint pool that tries each usable endpoint once and lets failed ones cool down.
module Rpc {
  import opened Types

  type Endpoint = string

  /** What of a reply decides whether it is usable. */
  datatype Response = Response(isDict: bool, version2: bool, hasError: bool, hasResult: bool, payload: string)

  /** _validate_response */
  predicate Usable(r: Response) { r.isDict && r.version2 && !r.hasError && r.hasResult }

  /** The clock when the transport is entered and when it is left, and what it gave; nothing when it raised. */
  datatype Reply = Reply(started: real, ended: real, response: Option<Response>)

  predicate Good(r: Reply) { r.response.Some? && Usable(r.response.value) }

  datatype Status = Status(healthy: bool, until: real, fails: nat, latency: Option<real>)

  const UP := Status(true, 0.0, 0, None)

  datatype Contact = Contact(endpoint: Endpoint, reply: Reply)

  type States = map<Endpoint, Status>

  /** What one call leaves: the endpoint states, whom it contacted, and the response or nothing. */
  datatype Trip = Trip(states: States, contacts: seq<Contact>, response: Option<Response>)

  predicate Available(states: States, e: Endpoint, now: real)
    requires e in states
  {
    states[e].healthy || now >= states[e].until
  }

  /** _candidate_endpoints */
  function Candidates(states: States, endpoints: seq<Endpoint>, now: real): (cs: seq<Endpoint>)
    requires forall e :: e in endpoints ==> e in states
    ensures forall e :: e in cs <==> e in endpoints && Available(states, e, now)
    ensures |cs| <= |endpoints|
  {
    if endpoints == [] then []
    else (if Available(states, endpoints[0], now) then [endpoints[0]] else [])
         + Candidates(states, endpoints[1..], now)
  }

  function AfterSuccess(s: Status, r: Reply): Status {
    s.(healthy := true, until := 0.0, latency := Some(r.ended - r.started))
  }

  function AfterFailure(s: Status, r: Reply, cooldown: real): Status {
    s.(healthy := false, until := r.ended + cooldown, fails := s.fails + 1)
  }

  /** Trying the candidates in turn; k of them were tried before, and world answers the n-th contact. */
  function Walk(states: States, cs: seq<Endpoint>, k: nat, world: nat -> Reply, cooldown: real): Trip
    requires forall e :: e in cs ==> e in states
    decreases |cs|
  {
    if cs == [] then Trip(states, [], None)
    else
      var c := Contact(cs[0], world(k));
      if Good(world(k)) then Trip(states[cs[0] := AfterSuccess(states[cs[0]], world(k))], [c], world(k).response)
      else
        var t := Walk(states[cs[0] := AfterFailure(states[cs[0]], world(k), cooldown)], cs[1..],
                      k + 1, world, cooldown);
        t.(contacts := [c] + t.contacts)
  }

  class RpcPool {
    const endpoints: seq<Endpoint>
    const cooldown: real
    var states: States
    var rpcId: nat

    predicate Ready()
      reads this
    {
      forall e :: e in endpoints ==> e in states
    }

    constructor (endpoints: seq<Endpoint>, cooldown: real)
      requires endpoints != []
      ensures this.endpoints == endpoints && this.cooldown == cooldown && Ready()
      ensures rpcId == 0 && forall e :: e in endpoints ==> states[e] == UP
    {
      this.endpoints, this.cooldown := endpoints, cooldown;
      states := map e | e in endpoints :: UP;
      rpcId := 0;
    }

    /** call: the clock reads now when the candidates are chosen; nothing returned is RpcAllDownError. */
    method Call(now: real, world: nat -> Reply) returns (response: Option<Response>, ghost contacts: seq<Contact>)
      requires Ready()
      modifies this
      ensures Ready() && rpcId == old(rpcId) + 1
      ensures Trip(states, contacts, response)
              == Walk(old(states), Candidates(old(states), endpoints, now), 0, world, cooldown)
    {
      rpcId := rpcId + 1;
      var cs := Candidates(states, endpoints, now);
      ghost var whole := Walk(states, cs, 0, world, cooldown);
      contacts := [];
      var i := 0;
      while i < |cs|
        invariant 0 <= i <= |cs| && Ready()
        invariant rpcId == old(rpcId) + 1
        invariant var rest := Walk(states, cs[i..], i, world, cooldown);
                  whole == rest.(contacts := contacts + rest.contacts)
      {
        var e, reply := cs[i], world(i);
        contacts := contacts + [Contact(e, reply)];
        assert cs[i..][0] == e && cs[i..][1..] == cs[i + 1..];
        if Good(reply) {
          states := states[e := AfterSuccess(states[e], reply)];
          return reply.response, contacts;
        }
        states := states[e := AfterFailure(states[e], reply, cooldown)];
        i := i + 1;
      }
      response := None;
    }
  }

  // ------------------------------------------------------------ one call

  ghost predicate DistinctEndpoints(es: seq<Endpoint>) {
    forall i, j :: 0 <= i < j < |es| ==> es[i] != es[j]
  }

  lemma {:induction false} CandidatesDistinct(states: States, endpoints: seq<Endpoint>, now: real)
    requires forall e :: e in endpoints ==> e in states
    requires DistinctEndpoints(endpoints)
    ensures DistinctEndpoints(Candidates(states, endpoints, now))
  {
    if endpoints != [] {
      var more := Candidates(states, endpoints[1..], now);
      CandidatesDistinct(states, endpoints[1..], now);
      assert endpoints[0] !in endpoints[1..];
      if Available(states, endpoints[0], now) {
        ConsDistinct(endpoints[0], more);
      }
    }
  }

  lemma ConsDistinct(e: Endpoint, es: seq<Endpoint>)
    requires DistinctEndpoints(es) && e !in es
    ensures DistinctEndpoints([e] + es)
  {
    forall i, j | 0 <= i < j < |es| + 1 ensures ([e] + es)[i] != ([e] + es)[j] {
      assert ([e] + es)[j] == es[j - 1];
    }
  }

  /** The place of a candidate in the list. */
  lemma {:induction false} CandidateAt(states: States, endpoints: seq<Endpoint>, now: real, a: nat) returns (i: nat)
    requires forall e :: e in endpoints ==> e in states
    requires a < |Candidates(states, endpoints, now)|
    ensures i < |endpoints| && endpoints[i] == Candidates(states, endpoints, now)[a]
    decreases |endpoints|
  {
    var skip := if Available(states, endpoints[0], now) then 1 else 0;
    if a < skip {
      i := 0;
    } else {
      i := CandidateAt(states, endpoints[1..], now, a - skip);
      i := i + 1;
    }
  }

  /** The candidates keep the order of the list. */
  lemma {:induction false} CandidatesInOrder(states: States, endpoints: seq<Endpoint>, now: real, a: nat, b: nat)
    returns (i: nat, j: nat)
    requires forall e :: e in endpoints ==> e in states
    requires a < b < |Candidates(states, endpoints, now)|
    ensures i < j < |endpoints|
    ensures var cs := Candidates(states, endpoints, now); endpoints[i] == cs[a] && endpoints[j] == cs[b]
    decreases |endpoints|
  {
    var skip := if Available(states, endpoints[0], now) then 1 else 0;
    if a < skip {
      i := 0;
      j := CandidateAt(states, endpoints[1..], now, b - 1);
      j := j + 1;
    } else {
      i, j := CandidatesInOrder(states, endpoints[1..], now, a - skip, b - skip);
      i, j := i + 1, j + 1;
    }
  }

  /** The contacts are the first candidates, answered in turn. */
  ghost predicate InTurn(contacts: seq<Contact>, cs: seq<Endpoint>, k: nat, world: nat -> Reply) {
    |contacts| <= |cs| && forall i :: 0 <= i < |contacts| ==> contacts[i] == Contact(cs[i], world(k + i))
  }

  ghost predicate Useless(contacts: seq<Contact>) {
    forall i :: 0 <= i < |contacts| ==> !Good(contacts[i].reply)
  }

  lemma InTurnCons(c: Contact, contacts: seq<Contact>, cs: seq<Endpoint>, k: nat, world: nat -> Reply)
    requires cs != [] && c == Contact(cs[0], world(k)) && InTurn(contacts, cs[1..], k + 1, world)
    ensures InTurn([c] + contacts, cs, k, world)
  {
    var all := [c] + contacts;
    forall i | 0 <= i < |all| ensures all[i] == Contact(cs[i], world(k + i)) {
      if i > 0 {
        assert all[i] == contacts[i - 1] && cs[i] == cs[1..][i - 1] && k + 1 + (i - 1) == k + i;
      }
    }
  }

  /** What a call returns: the response of its last contact when that is usable and all before were not,
      or nothing when every candidate was tried in vain. */
  ghost predicate FirstUsable(t: Trip, cs: seq<Endpoint>) {
    if t.response.None? then |t.contacts| == |cs| && Useless(t.contacts)
    else
      var n := |t.contacts| - 1;
      n >= 0 && Useless(t.contacts[..n]) && Good(t.contacts[n].reply) && t.response == t.contacts[n].reply.response
  }

  lemma FirstUsableCons(c: Contact, t: Trip, u: Trip, cs: seq<Endpoint>)
    requires cs != [] && !Good(c.reply) && FirstUsable(u, cs[1..])
    requires t.contacts == [c] + u.contacts && t.response == u.response
    ensures FirstUsable(t, cs)
  {
    if t.response.Some? {
      assert t.contacts[..|u.contacts|] == [c] + u.contacts[..|u.contacts| - 1];
    }
  }

  /** The contacts are the candidates from the front up to the first usable reply, which is returned;
      the call fails only when every candidate was tried in vain. */
  lemma {:induction false} FirstUsableReply(states: States, cs: seq<Endpoint>, k: nat, world: nat -> Reply,
                                            cooldown: real)
    requires forall e :: e in cs ==> e in states
    ensures var t := Walk(states, cs, k, world, cooldown);
            InTurn(t.contacts, cs, k, world) && FirstUsable(t, cs)
    decreases |cs|
  {
    if cs != [] {
      var t, c := Walk(states, cs, k, world, cooldown), Contact(cs[0], world(k));
      if Good(world(k)) {
        InTurnCons(c, [], cs, k, world);
        assert t.contacts == [c] + [] && t.contacts[..0] == [];
      } else {
        var next := states[cs[0] := AfterFailure(states[cs[0]], world(k), cooldown)];
        FirstUsableReply(next, cs[1..], k + 1, world, cooldown);
        var u := Walk(next, cs[1..], k + 1, world, cooldown);
        InTurnCons(c, u.contacts, cs, k, world);
        FirstUsableCons(c, t, u, cs);
      }
    }
  }

  // ------------------------------------------------------------ any history of calls

  datatype Request = Request(now: real, world: nat -> Reply)

  /** The pool's state, all contacts so far, and the last clock reading. */
  datatype History = History(states: States, log: seq<Contact>, time: real)

  /** The clock never runs backwards over a list of contacts that starts at a given time. */
  ghost predicate Monotone(log: seq<Contact>, from: real) {
    && (forall i :: 0 <= i < |log| ==> from <= log[i].reply.started <= log[i].reply.ended)
    && (forall i, j :: 0 <= i < j < |log| ==> log[i].reply.ended <= log[j].reply.started)
  }

  function LastTime(log: seq<Contact>, from: real): real {
    if log == [] then from else log[|log| - 1].reply.ended
  }

  function TripOf(h: History, endpoints: seq<Endpoint>, cooldown: real, q: Request): Trip
    requires forall e :: e in endpoints ==> e in h.states
  {
    Walk(h.states, Candidates(h.states, endpoints, q.now), 0, q.world, cooldown)
  }

  /** The history after one more call. */
  function Called(h: History, endpoints: seq<Endpoint>, cooldown: real, q: Request): History
    requires forall e :: e in endpoints ==> e in h.states
  {
    var t := TripOf(h, endpoints, cooldown, q);
    History(t.states, h.log + t.contacts, LastTime(t.contacts, q.now))
  }

  /** Every failure so far keeps its endpoint out until the cooldown is over. */
  ghost predicate Cooling(states: States, log: seq<Contact>, time: real, cooldown: real) {
    forall c :: c in log && !Good(c.reply) ==>
      && c.endpoint in states
      && c.reply.ended <= time
      && c.reply.ended + cooldown <= if states[c.endpoint].healthy then time else states[c.endpoint].until
  }

  /** No endpoint is contacted again within the cooldown after one of its failures. */
  ghost predicate Patient(log: seq<Contact>, cooldown: real) {
    forall i, j :: 0 <= i < j < |log| && log[i].endpoint == log[j].endpoint && !Good(log[i].reply) ==>
      log[j].reply.started >= log[i].reply.ended + cooldown
  }

  lemma MonotoneTail(c: Contact, rest: seq<Contact>, time: real)
    requires Monotone([c] + rest, time)
    ensures time <= c.reply.started <= c.reply.ended && Monotone(rest, c.reply.ended)
    ensures LastTime([c] + rest, time) == LastTime(rest, c.reply.ended)
  {
    var all := [c] + rest;
    assert all[0] == c;
    forall i | 0 <= i < |rest| ensures c.reply.ended <= rest[i].reply.started <= rest[i].reply.ended {
      assert all[i + 1] == rest[i];
    }
    forall i, j | 0 <= i < j < |rest| ensures rest[i].reply.ended <= rest[j].reply.started {
      assert all[i + 1] == rest[i] && all[j + 1] == rest[j];
    }
  }

  /** Distinct candidates, all due at the given time. */
  ghost predicate Due(states: States, cs: seq<Endpoint>, time: real) {
    && (forall e :: e in cs ==> e in states && Available(states, e, time))
    && DistinctEndpoints(cs)
  }

  /** Walking distinct candidates that are all due keeps every earlier cooldown. */
  lemma {:induction false} WalkKeepsCooling(states: States, cs: seq<Endpoint>, k: nat, world: nat -> Reply,
                                            cooldown: real, log: seq<Contact>, time: real)
    requires Due(states, cs, time)
    requires Cooling(states, log, time, cooldown) && Patient(log, cooldown)
    requires Monotone(Walk(states, cs, k, world, cooldown).contacts, time)
    ensures var t := Walk(states, cs, k, world, cooldown);
            && Cooling(t.states, log + t.contacts, LastTime(t.contacts, time), cooldown)
            && Patient(log + t.contacts, cooldown)
    decreases |cs|
  {
    if cs == [] {
      assert log + [] == log;
    } else if Good(world(k)) {
    } else {
      var c := Contact(cs[0], world(k));
      var next := states[cs[0] := AfterFailure(states[cs[0]], world(k), cooldown)];
      var u := Walk(next, cs[1..], k + 1, world, cooldown);
      MonotoneTail(c, u.contacts, time);
      assert cs[0] in cs;
      WalkKeepsCooling(next, cs[1..], k + 1, world, cooldown, log + [c], c.reply.ended);
      Regroup(log, c, u.contacts);
    }
  }

  lemma Regroup(log: seq<Contact>, c: Contact, more: seq<Contact>)
    ensures log + [c] + more == log + ([c] + more)
  {
  }

  ghost function Played(endpoints: seq<Endpoint>, cooldown: real, qs: seq<Request>): (h: History)
    ensures forall e :: e in endpoints ==> e in h.states
  {
    if qs == [] then History(map e | e in endpoints :: UP, [], 0.0)
    else
      var h := Played(endpoints, cooldown, qs[..|qs| - 1]);
      WalkKeepsKeys(h.states, Candidates(h.states, endpoints, qs[|qs| - 1].now), 0, qs[|qs| - 1].world, cooldown);
      Called(h, endpoints, cooldown, qs[|qs| - 1])
  }

  lemma {:induction false} WalkKeepsKeys(states: States, cs: seq<Endpoint>, k: nat, world: nat -> Reply, cooldown: real)
    requires forall e :: e in cs ==> e in states
    ensures Walk(states, cs, k, world, cooldown).states.Keys == states.Keys
    decreases |cs|
  {
    if cs != [] && !Good(world(k)) {
      WalkKeepsKeys(states[cs[0] := AfterFailure(states[cs[0]], world(k), cooldown)], cs[1..], k + 1, world, cooldown);
    }
  }

  /** Every call starts no earlier than the previous one ended, and its contacts follow one another. */
  ghost predicate MonotoneAt(endpoints: seq<Endpoint>, cooldown: real, h: History, q: Request)
    requires forall e :: e in endpoints ==> e in h.states
  {
    h.time <= q.now && Monotone(TripOf(h, endpoints, cooldown, q).contacts, q.now)
  }

  ghost predicate MonotoneRun(endpoints: seq<Endpoint>, cooldown: real, qs: seq<Request>) {
    qs != [] ==>
      && MonotoneRun(endpoints, cooldown, qs[..|qs| - 1])
      && MonotoneAt(endpoints, cooldown, Played(endpoints, cooldown, qs[..|qs| - 1]), qs[|qs| - 1])
  }

  /** In every history of calls no failed endpoint is contacted before its cooldown has passed. */
  lemma {:induction false} NeverRetriedEarly(endpoints: seq<Endpoint>, cooldown: real, qs: seq<Request>)
    requires DistinctEndpoints(endpoints)
    requires MonotoneRun(endpoints, cooldown, qs)
    ensures var h := Played(endpoints, cooldown, qs);
            Patient(h.log, cooldown) && Cooling(h.states, h.log, h.time, cooldown)
  {
    if qs != [] {
      var n := |qs| - 1;
      NeverRetriedEarly(endpoints, cooldown, qs[..n]);
      CallStaysPatient(Played(endpoints, cooldown, qs[..n]), endpoints, cooldown, qs[n]);
    }
  }

  lemma CallStaysPatient(h: History, endpoints: seq<Endpoint>, cooldown: real, q: Request)
    requires forall e :: e in endpoints ==> e in h.states
    requires DistinctEndpoints(endpoints)
    requires Patient(h.log, cooldown) && Cooling(h.states, h.log, h.time, cooldown)
    requires MonotoneAt(endpoints, cooldown, h, q)
    ensures var t := Called(h, endpoints, cooldown, q);
            Patient(t.log, cooldown) && Cooling(t.states, t.log, t.time, cooldown)
  {
    var cs := Candidates(h.states, endpoints, q.now);
    CandidatesDistinct(h.states, endpoints, q.now);
    assert Due(h.states, cs, q.now);
    assert Cooling(h.states, h.log, q.now, cooldown);
    WalkKeepsCooling(h.states, cs, 0, q.world, cooldown, h.log, q.now);
  }
}
