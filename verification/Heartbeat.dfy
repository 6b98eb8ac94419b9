/**
 * The heartbeat protocol between the master and its chunkservers (dfs/dfs-master.c,
 * dfs/dfs-chunkserver.c) over a radio that may lose, delay, duplicate and reorder
 * packets: a packet once sent can be received any number of times, at any later time,
 * or never.
 */
module Heartbeat {
  import opened Machine

  const MAX_LAG: nat := 3  // DFS_HB_MAX_LAG

  /** What the master keeps for a chunkserver; `ok` is its status CHUNK_OK. */
  datatype Server = Server(addr: Word, ok: bool, hbId: Word)

  /** A chunkserver as configured: its server id and its radio address. */
  datatype Station = Station(id: nat, addr: Word)

  datatype Packet = Beat(to: Word, id: Word) | Reply(server: nat, addr: Word, id: Word)

  /**
   * `servers` is the whole table, of which the first `num` are in use; `late` counts the sweep steps that found a
   * server already down and still lagging.
   */
  datatype State = State(id: Word, active: Word, servers: seq<Server>, num: nat, sent: set<Packet>, late: nat)

  /** A round begins; the sweep looks at a server; a station answers a heartbeat; the master hears a reply. */
  datatype Event = Begin | Sweep(i: nat) | Answer(st: Station, id: Word) | Hear(p: Packet)

  /** The unsigned comparison of the sweep. */
  predicate Lags(id: Word, s: Server) { Wrap(id - s.hbId) > MAX_LAG }

  function Swept(s: State, i: nat): State
    requires i < |s.servers|
  {
    var v := s.servers[i];
    var beat := Beat(v.addr, s.id);
    if Lags(s.id, v) then
      s.(servers := s.servers[i := v.(ok := false)], active := Wrap(s.active - 1), sent := s.sent + {beat},
         late := if v.ok then s.late else s.late + 1)
    else if !v.ok then
      s.(servers := s.servers[i := v.(ok := true)], active := Wrap(s.active + 1), sent := s.sent + {beat})
    else s.(sent := s.sent + {beat})
  }

  /** A reply is recorded when its address is the one configured for the server it names. */
  function Heard(s: State, p: Packet): State
    requires p.Reply? && p.server < |s.servers|
  {
    if s.servers[p.server].addr != p.addr then s
    else s.(servers := s.servers[p.server := s.servers[p.server].(hbId := p.id)])
  }

  predicate Enabled(s: State, e: Event) {
    match e
    case Begin => s.id < TWO32 - 1
    case Sweep(i) => i < s.num <= |s.servers|
    case Answer(st, id) => st.id < |s.servers| && Beat(st.addr, id) in s.sent
    case Hear(p) => p in s.sent && p.Reply?
  }

  predicate Sane(s: State) { forall p :: p in s.sent && p.Reply? ==> p.server < |s.servers| }

  function Next(s: State, e: Event): State
    requires Enabled(s, e) && Sane(s)
  {
    match e
    case Begin => s.(id := s.id + 1)
    case Sweep(i) => Swept(s, i)
    case Answer(st, id) => s.(sent := s.sent + {Reply(st.id, st.addr, id)})
    case Hear(p) => Heard(s, p)
  }

  // ----- the invariant -----

  function OkCount(vs: seq<Server>): nat {
    if vs == [] then 0 else (if vs[0].ok then 1 else 0) + OkCount(vs[1..])
  }

  lemma {:induction false} OkCountUpdate(vs: seq<Server>, i: nat, v: Server)
    requires i < |vs|
    ensures OkCount(vs[i := v]) == OkCount(vs) + (if v.ok then 1 else 0) - (if vs[i].ok then 1 else 0)
  {
    if i > 0 {
      OkCountUpdate(vs[1..], i - 1, v);
      assert vs[i := v][1..] == vs[1..][i - 1 := v];
    }
  }

  /** No packet is ahead of the master, and every reply answers a heartbeat that was sent. */
  ghost predicate PacketsOk(s: State) {
    && Sane(s)
    && (forall p :: p in s.sent ==> p.id <= s.id)
    && (forall p :: p in s.sent && p.Reply? ==> Beat(p.addr, p.id) in s.sent)
  }

  /** A recorded id is the initial 0 or came in a reply of that very server. */
  ghost predicate RecordsOk(s: State) {
    forall i :: 0 <= i < |s.servers| ==>
      && s.servers[i].hbId <= s.id
      && (s.servers[i].hbId == 0 || Reply(i, s.servers[i].addr, s.servers[i].hbId) in s.sent)
  }

  ghost predicate Inv(s: State) {
    PacketsOk(s) && RecordsOk(s) && s.active == Wrap(OkCount(s.servers) - s.late)
  }

  lemma WrapAdd(x: int, d: int)
    ensures Wrap(Wrap(x) + d) == Wrap(x + d)
  {
  }

  lemma SweepKeepsCount(s: State, i: nat)
    requires i < |s.servers| && s.active == Wrap(OkCount(s.servers) - s.late)
    ensures Swept(s, i).active == Wrap(OkCount(Swept(s, i).servers) - Swept(s, i).late)
  {
    var v := s.servers[i];
    OkCountUpdate(s.servers, i, v.(ok := !Lags(s.id, v)));
    WrapAdd(OkCount(s.servers) - s.late, 1);
    WrapAdd(OkCount(s.servers) - s.late, -1);
  }

  lemma HearKeeps(s: State, p: Packet)
    requires Inv(s) && p in s.sent && p.Reply?
    ensures Inv(Heard(s, p))
  {
    OkCountUpdate(s.servers, p.server, s.servers[p.server].(hbId := p.id));
  }

  lemma StepKeeps(s: State, e: Event)
    requires Inv(s) && Enabled(s, e)
    ensures Inv(Next(s, e))
  {
    match e
    case Sweep(i) => SweepKeepsCount(s, i);
    case Hear(p) => HearKeeps(s, p);
    case _ =>
  }

  /** The master starts with every server down, nothing recorded and nothing sent. */
  ghost predicate Init(s: State) {
    && s.id == 0 && s.active == 0 && s.sent == {} && s.late == 0
    && forall i :: 0 <= i < |s.servers| ==> !s.servers[i].ok && s.servers[i].hbId == 0
  }

  ghost predicate IsRun(ss: seq<State>, es: seq<Event>) {
    && |ss| == |es| + 1 && Init(ss[0])
    && forall k :: 0 <= k < |es| ==> Sane(ss[k]) && Enabled(ss[k], es[k]) && ss[k + 1] == Next(ss[k], es[k])
  }

  lemma {:induction false} NoneOk(vs: seq<Server>)
    requires forall i :: 0 <= i < |vs| ==> !vs[i].ok
    ensures OkCount(vs) == 0
  {
    if vs != [] { NoneOk(vs[1..]); }
  }

  lemma {:induction false} RunKeeps(ss: seq<State>, es: seq<Event>, k: nat)
    requires IsRun(ss, es) && k < |ss|
    ensures Inv(ss[k])
  {
    if k == 0 {
      NoneOk(ss[0].servers);
    } else {
      RunKeeps(ss, es, k - 1);
      StepKeeps(ss[k - 1], es[k - 1]);
    }
  }

  // ----- what the protocol guarantees -----

  /** A recorded id never passes the master's, so the unsigned lag is the true one. */
  lemma LagNeverWraps(ss: seq<State>, es: seq<Event>, k: nat, i: nat)
    requires IsRun(ss, es) && k < |ss| && i < |ss[k].servers|
    ensures ss[k].servers[i].hbId <= ss[k].id
    ensures Wrap(ss[k].id - ss[k].servers[i].hbId) == ss[k].id - ss[k].servers[i].hbId
  {
    RunKeeps(ss, es, k);
  }

  /** After a sweep step the server is up exactly when its lag is at most three, and no other changed. */
  lemma SweepDecides(ss: seq<State>, es: seq<Event>, k: nat)
    requires IsRun(ss, es) && k < |es| && es[k].Sweep?
    ensures es[k].i < |ss[k + 1].servers| == |ss[k].servers|
    ensures ss[k + 1].servers[es[k].i].ok <==> ss[k + 1].id - ss[k + 1].servers[es[k].i].hbId <= 3
    ensures forall j :: 0 <= j < |ss[k].servers| && j != es[k].i ==> ss[k + 1].servers[j] == ss[k].servers[j]
  {
    RunKeeps(ss, es, k);
  }

  /** The id of the last reply heard from server `i` with address `addr` in the first `k` events, or 0. */
  function LastHeard(es: seq<Event>, k: nat, i: nat, addr: Word): Word
    requires k <= |es|
  {
    if k == 0 then 0
    else
      var e := es[k - 1];
      if e.Hear? && e.p.Reply? && e.p.server == i && e.p.addr == addr then e.p.id else LastHeard(es, k - 1, i, addr)
  }

  lemma {:induction false} TableSize(ss: seq<State>, es: seq<Event>, k: nat)
    requires IsRun(ss, es) && k <= |es|
    ensures |ss[k].servers| == |ss[0].servers|
  {
    if k > 0 { TableSize(ss, es, k - 1); }
  }

  /** What is recorded of a server is its last reply, and addresses never change. */
  lemma {:induction false} RecordIsLastReply(ss: seq<State>, es: seq<Event>, k: nat, i: nat)
    requires IsRun(ss, es) && k <= |es| && i < |ss[0].servers|
    ensures |ss[k].servers| == |ss[0].servers| && ss[k].servers[i].addr == ss[0].servers[i].addr
    ensures ss[k].servers[i].hbId == LastHeard(es, k, i, ss[0].servers[i].addr)
  {
    if k > 0 { RecordIsLastReply(ss, es, k - 1, i); }
  }

  /** A heartbeat that reaches its station comes back as a reply that is recorded for that station. */
  lemma AnswerIsHeard(s: State, st: Station, id: Word)
    requires Inv(s) && Enabled(s, Answer(st, id)) && s.servers[st.id].addr == st.addr
    ensures var s1 := Next(s, Answer(st, id)); var p := Reply(st.id, st.addr, id);
      && Sane(s1) && s1.sent == s.sent + {p} && s1.servers == s.servers && Enabled(s1, Hear(p))
      && Next(s1, Hear(p)).servers == s.servers[st.id := s.servers[st.id].(hbId := id)]
  {
    StepKeeps(s, Answer(st, id));
  }

  function Begins(es: seq<Event>, k: nat): nat
    requires k <= |es|
  {
    if k == 0 then 0 else Begins(es, k - 1) + if es[k - 1].Begin? then 1 else 0
  }

  lemma {:induction false} IdCountsRounds(ss: seq<State>, es: seq<Event>, k: nat)
    requires IsRun(ss, es) && k <= |es|
    ensures ss[k].id == Begins(es, k)
  {
    if k > 0 { IdCountsRounds(ss, es, k - 1); }
  }

  /** A sweep step finds a server up if and only if its last reply is at most three rounds old. */
  lemma UpIffAnswered(ss: seq<State>, es: seq<Event>, k: nat)
    requires IsRun(ss, es) && k < |es| && es[k].Sweep?
    ensures es[k].i < |ss[k + 1].servers| == |ss[0].servers|
    ensures ss[k + 1].servers[es[k].i].ok <==>
              Begins(es, k) - LastHeard(es, k, es[k].i, ss[0].servers[es[k].i].addr) <= 3
  {
    SweepDecides(ss, es, k);
    TableSize(ss, es, k);
    RecordIsLastReply(ss, es, k, es[k].i);
    IdCountsRounds(ss, es, k);
  }

  /** A server found up has answered one of the last three heartbeats sent to it, or there were at most three rounds. */
  lemma UpMeansAnswered(ss: seq<State>, es: seq<Event>, k: nat)
    requires IsRun(ss, es) && k < |es| && es[k].Sweep? && es[k].i < |ss[k + 1].servers| && ss[k + 1].servers[es[k].i].ok
    ensures var i, n := es[k].i, ss[k + 1]; var v := n.servers[i];
      n.id <= 3
      || (v.hbId >= n.id - 3 && Reply(i, v.addr, v.hbId) in n.sent && Beat(v.addr, v.hbId) in n.sent)
  {
    SweepDecides(ss, es, k);
    RunKeeps(ss, es, k + 1);
  }

  /** The active count is the number of servers that are up, less the late steps, modulo 2^32. */
  lemma ActiveCount(ss: seq<State>, es: seq<Event>, k: nat)
    requires IsRun(ss, es) && k < |ss|
    ensures ss[k].active == Wrap(OkCount(ss[k].servers) - ss[k].late)
    ensures ss[k].late < TWO32 && OkCount(ss[k].servers) < TWO32 ==>
              (ss[k].active == OkCount(ss[k].servers) <==> ss[k].late == 0)
  {
    RunKeeps(ss, es, k);
  }

  /**
   * A sweep step keeps the active count equal to the number of servers that are up exactly when it does not
   * meet a server that is already down and still lags: the count is lowered for such a server again.
   */
  lemma SweepCountsRightIff(s: State, i: nat)
    requires i < |s.servers| && s.active == Wrap(OkCount(s.servers))
    ensures Swept(s, i).active == Wrap(OkCount(Swept(s, i).servers)) <==> s.servers[i].ok || !Lags(s.id, s.servers[i])
  {
    var v := s.servers[i];
    OkCountUpdate(s.servers, i, v.(ok := !Lags(s.id, v)));
    WrapAdd(OkCount(s.servers), 1);
    WrapAdd(OkCount(s.servers), -1);
  }

  /** The master after `r` rounds with one server that never answers. */
  function Silent(addr: Word, r: nat): (s: State)
    requires r < TWO32
    ensures |s.servers| == s.num == 1 && Sane(s) && s.id == r
  {
    if r == 0 then State(0, 0, [Server(addr, false, 0)], 1, {}, 0)
    else Next(Next(Silent(addr, r - 1), Begin), Sweep(0))
  }

  /** Such a server is taken for up for three rounds; from the fifth on the count has wrapped below zero. */
  lemma {:induction false} SilentServerDrifts(addr: Word, r: nat)
    requires r < TWO32
    ensures Silent(addr, r).servers == [Server(addr, 1 <= r <= 3, 0)]
    ensures Silent(addr, r).active == if r == 0 then 0 else if r <= 3 then 1 else Wrap(4 - r)
  {
    if r > 0 {
      SilentServerDrifts(addr, r - 1);
      SilentRound(addr, r, Silent(addr, r - 1));
    }
  }

  lemma SilentRound(addr: Word, r: nat, s: State)
    requires 0 < r < TWO32 && s.id == r - 1 && s.num == 1 && Sane(s)
    requires s.servers == [Server(addr, 1 <= r - 1 <= 3, 0)]
    requires s.active == if r == 1 then 0 else if r <= 4 then 1 else Wrap(5 - r)
    ensures var n := Next(Next(s, Begin), Sweep(0));
      n.servers == [Server(addr, r <= 3, 0)] && n.active == if r <= 3 then 1 else Wrap(4 - r)
  {
    SweepOne(Next(s, Begin), addr, 2 <= r <= 4);
    WrapAdd(5 - r, -1);
  }

  lemma SweepOne(b: State, addr: Word, up: bool)
    requires b.servers == [Server(addr, up, 0)]
    ensures Swept(b, 0).servers == [Server(addr, b.id <= 3, 0)]
    ensures Swept(b, 0).active == if b.id > 3 then Wrap(b.active - 1) else if up then b.active else Wrap(b.active + 1)
  {
  }

  // ----- the master's own code -----

  /** The first `k` servers are up exactly when their lag is at most three, and were sent the current heartbeat. */
  ghost predicate Decided(vs: seq<Server>, s: State, k: nat) {
    && k <= |s.servers| == |vs|
    && (forall i :: 0 <= i < |vs| ==> s.servers[i].addr == vs[i].addr && s.servers[i].hbId == vs[i].hbId)
    && (forall i :: 0 <= i < k ==> (s.servers[i].ok <==> s.id - s.servers[i].hbId <= 3))
    && (forall i :: 0 <= i < k ==> Beat(s.servers[i].addr, s.id) in s.sent)
  }

  lemma SweepAdvances(vs: seq<Server>, s: State, k: nat)
    requires Inv(s) && Decided(vs, s, k) && k < s.num <= |s.servers|
    ensures Inv(Swept(s, k)) && Decided(vs, Swept(s, k), k + 1)
  {
    StepKeeps(s, Sweep(k));
    assert s.servers[k].hbId <= s.id;
  }

  class Master {
    var curHbId: Word
    var numActive: Word
    var servers: seq<Server>
    const num: nat
    ghost var sent: set<Packet>
    ghost var late: nat

    ghost function View(): State
      reads this
    {
      State(curHbId, numActive, servers, num, sent, late)
    }

    constructor (addrs: seq<Word>, n: nat)
      requires n <= |addrs|
      ensures Init(View()) && num == n && |servers| == |addrs|
    {
      curHbId, numActive, num := 0, 0, n;
      servers := seq(|addrs|, i requires 0 <= i < |addrs| => Server(addrs[i], false, 0));
      sent, late := {}, 0;
    }

    /** One step of the sweep, with interrupts off; the heartbeat it sends carries the current id. */
    method SweepStep(i: nat) returns (p: Packet)
      requires i < |servers|
      modifies this
      ensures View() == Swept(old(View()), i) && p == Beat(servers[i].addr, curHbId) && curHbId == old(curHbId)
      ensures var v := old(servers)[i];
        var up := Wrap(curHbId - v.hbId) <= 3;
        && servers == old(servers)[i := v.(ok := up)]
        && numActive == Wrap(old(numActive) + if !up then -1 else if v.ok then 0 else 1)
    {
      var v := servers[i];
      if Wrap(curHbId - v.hbId) > MAX_LAG {
        if !v.ok { late := late + 1; }
        servers := servers[i := v.(ok := false)];
        numActive := Wrap(numActive - 1);
      } else {
        if !v.ok {
          servers := servers[i := v.(ok := true)];
          numActive := Wrap(numActive + 1);
        }
      }
      p := Beat(v.addr, curHbId);
      sent := sent + {p};
    }

    /** A round: the id advances and every server in use is swept and sent a heartbeat. */
    method Round()
      requires Inv(View()) && num <= |servers| && curHbId < TWO32 - 1
      modifies this
      ensures Inv(View()) && curHbId == old(curHbId) + 1 && Decided(old(servers), View(), num)
    {
      StepKeeps(View(), Begin);
      curHbId := curHbId + 1;
      for i := 0 to num
        invariant Inv(View()) && curHbId == old(curHbId) + 1 && Decided(old(servers), View(), i)
      {
        SweepAdvances(old(servers), View(), i);
        var _ := SweepStep(i);
      }
    }

    /** A reply of the named server is recorded; one from another address is ignored. */
    method HandleReply(p: Packet) returns (recorded: bool)
      requires p.Reply? && p.server < |servers|
      modifies this`servers
      ensures View() == Heard(old(View()), p) && (recorded <==> old(servers)[p.server].addr == p.addr)
      ensures servers == if recorded then old(servers)[p.server := old(servers)[p.server].(hbId := p.id)]
                         else old(servers)
    {
      if servers[p.server].addr != p.addr { return false; }
      servers := servers[p.server := servers[p.server].(hbId := p.id)];
      return true;
    }
  }
}
