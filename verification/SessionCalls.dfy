/**
 Whole calls: what a caller of the connection manager sees when nobody interferes, from the first
 step of the call to its last, down to the last field of the state.
 */
module SessionCalls {
  import opened Wrappers
  import opened SessionState
  import opened SessionSteps
  import opened SessionInvariants
  import opened SessionSafety
  import opened SessionRuns
  import opened SessionTheorems

  /** Goroutine t takes one step for each answer, and nobody else does; None if it has to wait. */
  function Alone(s: Sys, t: nat, answers: seq<bool>, cfg: ReconnectConfig): Option<Sys>
    decreases |answers|
  {
    if answers == [] then Some(s)
    else if t in s.threads && CanGo(s, s.threads[t], answers[0])
    then Alone(Advance(s, t, answers[0], cfg), t, answers[1..], cfg)
    else None
  }

  /** That is a run of the manager. */
  lemma {:induction false} AloneIsRun(s: Sys, t: nat, answers: seq<bool>, cfg: ReconnectConfig) returns (steps: seq<Step>)
    requires Alone(s, t, answers, cfg).Some?
    ensures |steps| == |answers| && forall k :: 0 <= k < |steps| ==> steps[k] == Go(t, answers[k], cfg)
    ensures CanRun(s, steps) && End(s, steps) == Alone(s, t, answers, cfg).value
    decreases |answers|
  {
    if answers == [] {
      steps := [];
    } else {
      var rest := AloneIsRun(Advance(s, t, answers[0], cfg), t, answers[1..], cfg);
      Prepend(s, Go(t, answers[0], cfg), rest);
      steps := [Go(t, answers[0], cfg)] + rest;
    }
  }

  lemma ToTo(s: Sys, t: nat, m: Shared, pc: Pc, m': Shared, pc': Pc)
    ensures To(To(s, t, m, pc), t, m', pc') == To(s, t, m', pc')
  {
    assert s.threads[t := pc][t := pc'] == s.threads[t := pc'];
  }

  /** One step of goroutine t, which is at pc. */
  lemma Moves(s: Sys, t: nat, m: Shared, pc: Pc, answer: bool, m': Shared, pc': Pc, rest: seq<bool>, cfg: ReconnectConfig)
    requires CanGo(To(s, t, m, pc), pc, answer)
    requires Advance(To(s, t, m, pc), t, answer, cfg) == To(To(s, t, m, pc), t, m', pc')
    ensures Alone(To(s, t, m, pc), t, [answer] + rest, cfg) == Alone(To(s, t, m', pc'), t, rest, cfg)
  {
    hide Advance, CanGo;
    ToTo(s, t, m, pc, m', pc');
    assert ([answer] + rest)[1..] == rest;
  }

  lemma Rests(s: Sys, t: nat, cfg: ReconnectConfig)
    ensures Alone(s, t, [], cfg) == Some(s)
  {}

  // ----- ConnectOrReuse -----

  lemma ConnectIs(s: Sys, t: nat, i: Ident)
    requires t !in s.threads
    ensures Enabled(s, Connect(t, i)) && Next(s, Connect(t, i)) == To(s, t, s.m, Looking(i))
  {}

  /** An indexed connection that is up is handed out at once, and nothing changes. */
  lemma ReuseAlone(s: Sys, t: nat, i: Ident, cfg: ReconnectConfig)
    requires Inv(s) && t !in s.threads && i in s.m.connByIdent
    ensures var c := s.m.connByIdent[i];
      && c in s.m.heap && Enabled(s, Connect(t, i))
      && (s.m.heap[c].phase == Connected ==>
            Alone(Next(s, Connect(t, i)), t, [true], cfg) == Some(To(s, t, s.m, Returned(i, Some(c)))))
  {
    CoreMaps(s);
    hide Inv;
    var c := s.m.connByIdent[i];
    if s.m.heap[c].phase == Connected {
      Moves(s, t, s.m, Looking(i), true, s.m, Returned(i, Some(c)), [], cfg);
      assert [true] + [] == [true];
    }
  }

  /** What a dial leaves: the connection registered and indexed, its gate open, and nobody pending who was not before. */
  function Dialled(m: Shared, i: Ident, cfg: ReconnectConfig): Shared {
    m.(heap := m.heap[m.nextId := Conn(i, cfg, Connected, 0, m.nextSignal + 1, 0, [], 0)],
       connections := m.connections + {m.nextId},
       connByIdent := m.connByIdent[i := m.nextId],
       closed := m.closed + {m.nextSignal},
       nextId := m.nextId + 1,
       nextSignal := m.nextSignal + 2)
  }

  lemma LooksAndDials(s: Sys, t: nat, m: Shared, i: Ident, rest: seq<bool>, cfg: ReconnectConfig)
    requires i !in m.connByIdent && i !in m.pending
    ensures Alone(To(s, t, m, Looking(i)), t, [true] + rest, cfg)
         == Alone(To(s, t, m.(pending := m.pending[i := m.nextSignal], nextSignal := m.nextSignal + 1),
                     Dialing(i, m.nextSignal)), t, rest, cfg)
  {
    Moves(s, t, m, Looking(i), true, m.(pending := m.pending[i := m.nextSignal], nextSignal := m.nextSignal + 1),
          Dialing(i, m.nextSignal), rest, cfg);
  }

  lemma GetsAnswer(s: Sys, t: nat, m: Shared, i: Ident, g: nat, answer: bool, rest: seq<bool>, cfg: ReconnectConfig)
    ensures Alone(To(s, t, m, Dialing(i, g)), t, [answer] + rest, cfg)
         == Alone(To(s, t, m, if answer then DialDone(i, g, cfg) else DialFailed(i, g)), t, rest, cfg)
  {
    Moves(s, t, m, Dialing(i, g), answer, m, if answer then DialDone(i, g, cfg) else DialFailed(i, g), rest, cfg);
  }

  lemma Settles(s: Sys, t: nat, m: Shared, i: Ident, g: nat, rest: seq<bool>, cfg: ReconnectConfig)
    ensures Alone(To(s, t, m, DialDone(i, g, cfg)), t, [true] + rest, cfg)
         == Alone(To(s, t, Publish(m, i, cfg), OpeningGate(i, g, Some(m.nextId))), t, rest, cfg)
    ensures Alone(To(s, t, m, DialFailed(i, g)), t, [true] + rest, cfg)
         == Alone(To(s, t, AbandonDial(m, i), OpeningGate(i, g, None)), t, rest, cfg)
  {
    Moves(s, t, m, DialDone(i, g, cfg), true, Publish(m, i, cfg), OpeningGate(i, g, Some(m.nextId)), rest, cfg);
    Moves(s, t, m, DialFailed(i, g), true, AbandonDial(m, i), OpeningGate(i, g, None), rest, cfg);
  }

  lemma OpensGate(s: Sys, t: nat, m: Shared, i: Ident, g: nat, r: Option<nat>, cfg: ReconnectConfig)
    ensures Alone(To(s, t, m, OpeningGate(i, g, r)), t, [true], cfg) == Some(To(s, t, Close(m, g), Returned(i, r)))
  {
    Moves(s, t, m, OpeningGate(i, g, r), true, Close(m, g), Returned(i, r), [], cfg);
    assert [true] + [] == [true];
  }

  /** What the sections of a dial add up to. */
  lemma DialAddsUp(m: Shared, i: Ident, cfg: ReconnectConfig)
    requires i !in m.connByIdent && i !in m.pending && m.nextSignal !in m.closed
    ensures var m1 := m.(pending := m.pending[i := m.nextSignal], nextSignal := m.nextSignal + 1);
      && Close(Publish(m1, i, cfg), m.nextSignal) == Dialled(m, i, cfg)
      && Close(AbandonDial(m1, i), m.nextSignal)
         == m.(closed := m.closed + {m.nextSignal}, nextSignal := m.nextSignal + 1)
  {
    assert m.pending[i := m.nextSignal] - {i} == m.pending;
  }

  lemma DialFrom(s: Sys, t: nat, m: Shared, i: Ident, cfg: ReconnectConfig)
    requires i !in m.connByIdent && i !in m.pending && m.nextSignal !in m.closed
    ensures Alone(To(s, t, m, Looking(i)), t, [true, true, true, true], cfg)
         == Some(To(s, t, Dialled(m, i, cfg), Returned(i, Some(m.nextId))))
    ensures Alone(To(s, t, m, Looking(i)), t, [true, false, true, true], cfg)
         == Some(To(s, t, m.(closed := m.closed + {m.nextSignal}, nextSignal := m.nextSignal + 1), Returned(i, None)))
  {
    hide *;
    var g := m.nextSignal;
    var m1 := m.(pending := m.pending[i := g], nextSignal := g + 1);
    DialAddsUp(m, i, cfg);
    LooksAndDials(s, t, m, i, [true, true, true], cfg);
    LooksAndDials(s, t, m, i, [false, true, true], cfg);
    GetsAnswer(s, t, m1, i, g, true, [true, true], cfg);
    GetsAnswer(s, t, m1, i, g, false, [true, true], cfg);
    Settles(s, t, m1, i, g, [true], cfg);
    OpensGate(s, t, Publish(m1, i, cfg), i, g, Some(m.nextId), cfg);
    OpensGate(s, t, AbandonDial(m1, i), i, g, None, cfg);
    assert [true] + [false, true, true] == [true, false, true, true] && [false] + [true, true] == [false, true, true];
    assert [true] + [true, true, true] == [true, true, true, true] && [true] + [true, true] == [true, true, true];
    assert [true] + [true] == [true, true];
  }

  /** With nothing indexed and nobody dialling, the caller dials: it gets the new connection, or nothing if the dial fails. */
  lemma DialAlone(s: Sys, t: nat, i: Ident, cfg: ReconnectConfig)
    requires Inv(s) && t !in s.threads && i !in s.m.connByIdent && i !in s.m.pending
    ensures Enabled(s, Connect(t, i))
    ensures Alone(Next(s, Connect(t, i)), t, [true, true, true, true], cfg)
         == Some(To(s, t, Dialled(s.m, i, cfg), Returned(i, Some(s.m.nextId))))
    ensures Alone(Next(s, Connect(t, i)), t, [true, false, true, true], cfg)
         == Some(To(s, t, s.m.(closed := s.m.closed + {s.m.nextSignal}, nextSignal := s.m.nextSignal + 1), Returned(i, None)))
  {
    hide *;
    ConnectIs(s, t, i);
    UnusedFacts(s, i);
    DialFrom(s, t, s.m, i, cfg);
  }

  /** A failed connection is taken out of both maps first. */
  lemma RedialAlone(s: Sys, t: nat, i: Ident, cfg: ReconnectConfig)
    requires Inv(s) && t !in s.threads && i in s.m.connByIdent && i != LOCAL_IDENT
    requires s.m.connByIdent[i] in s.m.heap && s.m.heap[s.m.connByIdent[i]].phase == Failed
    ensures Enabled(s, Connect(t, i))
    ensures var m := s.m.(connByIdent := s.m.connByIdent - {i}, connections := s.m.connections - {s.m.connByIdent[i]});
      && Alone(Next(s, Connect(t, i)), t, [true, true, true, true, true, true], cfg)
         == Some(To(s, t, Dialled(m, i, cfg), Returned(i, Some(m.nextId))))
      && Alone(Next(s, Connect(t, i)), t, [true, true, true, false, true, true], cfg)
         == Some(To(s, t, m.(closed := m.closed + {m.nextSignal}, nextSignal := m.nextSignal + 1), Returned(i, None)))
  {
    hide *;
    ConnectIs(s, t, i);
    UnusedFacts(s, i);
    RedialFrom(s, t, i, cfg);
  }

  lemma UnusedFacts(s: Sys, i: Ident)
    requires Inv(s)
    ensures s.m.nextSignal !in s.m.closed && s.m.nextId !in s.m.heap
    ensures i in s.m.connByIdent ==> s.m.connByIdent[i] in s.m.heap
    ensures i in s.m.connByIdent && i != LOCAL_IDENT ==> i !in s.m.pending
  {
    CoreMaps(s);
    hide Inv;
  }

  lemma RedialFrom(s: Sys, t: nat, i: Ident, cfg: ReconnectConfig)
    requires i in s.m.connByIdent && i !in s.m.pending && s.m.nextSignal !in s.m.closed
    requires s.m.connByIdent[i] in s.m.heap && s.m.heap[s.m.connByIdent[i]].phase == Failed
    ensures var m := s.m.(connByIdent := s.m.connByIdent - {i}, connections := s.m.connections - {s.m.connByIdent[i]});
      && Alone(To(s, t, s.m, Looking(i)), t, [true, true, true, true, true, true], cfg)
         == Some(To(s, t, Dialled(m, i, cfg), Returned(i, Some(m.nextId))))
      && Alone(To(s, t, s.m, Looking(i)), t, [true, true, true, false, true, true], cfg)
         == Some(To(s, t, m.(closed := m.closed + {m.nextSignal}, nextSignal := m.nextSignal + 1), Returned(i, None)))
  {
    hide Alone, Dialled, To;
    var m := Drop(s.m, i, s.m.connByIdent[i]);
    DialFrom(s, t, m, i, cfg);
    LooksAndDrops(s, t, i, [true, true, true, true], cfg);
    LooksAndDrops(s, t, i, [true, false, true, true], cfg);
    assert [true] + ([true] + [true, true, true, true]) == [true, true, true, true, true, true];
    assert [true] + ([true] + [true, false, true, true]) == [true, true, true, false, true, true];
  }

  lemma LooksAndDrops(s: Sys, t: nat, i: Ident, rest: seq<bool>, cfg: ReconnectConfig)
    requires i in s.m.connByIdent && s.m.connByIdent[i] in s.m.heap && s.m.heap[s.m.connByIdent[i]].phase == Failed
    ensures Alone(To(s, t, s.m, Looking(i)), t, [true] + ([true] + rest), cfg)
         == Alone(To(s, t, Drop(s.m, i, s.m.connByIdent[i]), Looking(i)), t, rest, cfg)
  {
    var c := s.m.connByIdent[i];
    hide Alone;
    Moves(s, t, s.m, Looking(i), true, s.m, Dropping(i, c), [true] + rest, cfg);
    Moves(s, t, s.m, Dropping(i, c), true, Drop(s.m, i, c), Looking(i), rest, cfg);
  }

  /**
   A connection that is being reconnected, or a dial in flight, is waited for: nothing changes, and the
   caller cannot go on until the signal is closed, unless the program shuts down.
   */
  lemma WaitAlone(s: Sys, t: nat, i: Ident, cfg: ReconnectConfig)
    requires Inv(s) && t !in s.threads
    ensures i in s.m.connByIdent && s.m.connByIdent[i] in s.m.heap && s.m.heap[s.m.connByIdent[i]].phase == Reconnecting ==>
      var c := s.m.connByIdent[i];
      && Alone(Next(s, Connect(t, i)), t, [true], cfg)
         == Some(To(s, t, s.m, AwaitingDone(i, c, s.m.heap[c].done)))
      && Alone(Next(s, Connect(t, i)), t, [true, true], cfg) == None
      && (s.cancelled ==> Alone(Next(s, Connect(t, i)), t, [true, false], cfg) == Some(To(s, t, s.m, Returned(i, None))))
    ensures i !in s.m.connByIdent && i in s.m.pending ==>
      && Alone(Next(s, Connect(t, i)), t, [true], cfg) == Some(To(s, t, s.m, AwaitingGate(i, s.m.pending[i])))
      && Alone(Next(s, Connect(t, i)), t, [true, true], cfg) == None
  {
    ConnectIs(s, t, i);
    if i in s.m.connByIdent && s.m.connByIdent[i] in s.m.heap && s.m.heap[s.m.connByIdent[i]].phase == Reconnecting {
      CoreConn(s, s.m.connByIdent[i]);
      hide *;
      WaitsForReconnect(s, t, i, cfg);
    } else if i !in s.m.connByIdent && i in s.m.pending {
      PendingOpen(s, i);
      hide *;
      WaitsForDial(s, t, i, cfg);
    }
  }

  lemma WaitsForReconnect(s: Sys, t: nat, i: Ident, cfg: ReconnectConfig)
    requires i in s.m.connByIdent && s.m.connByIdent[i] in s.m.heap
    requires var k := s.m.heap[s.m.connByIdent[i]]; k.phase == Reconnecting && k.done !in s.m.closed
    ensures var c := s.m.connByIdent[i];
      var looking := To(s, t, s.m, Looking(i));
      && Alone(looking, t, [true], cfg) == Some(To(s, t, s.m, AwaitingDone(i, c, s.m.heap[c].done)))
      && Alone(looking, t, [true, true], cfg) == None
      && (s.cancelled ==> Alone(looking, t, [true, false], cfg) == Some(To(s, t, s.m, Returned(i, None))))
  {
    assert [true] + [] == [true] && [true] + [true] == [true, true] && [true] + [false] == [true, false];
    assert [false] + [] == [false];
    var c := s.m.connByIdent[i];
    var pc := AwaitingDone(i, c, s.m.heap[c].done);
    Moves(s, t, s.m, Looking(i), true, s.m, pc, [], cfg);
    Moves(s, t, s.m, Looking(i), true, s.m, pc, [true], cfg);
    Moves(s, t, s.m, Looking(i), true, s.m, pc, [false], cfg);
    if s.cancelled { Moves(s, t, s.m, pc, false, s.m, Returned(i, None), [], cfg); }
  }

  lemma WaitsForDial(s: Sys, t: nat, i: Ident, cfg: ReconnectConfig)
    requires i !in s.m.connByIdent && i in s.m.pending && s.m.pending[i] !in s.m.closed
    ensures var looking := To(s, t, s.m, Looking(i));
      && Alone(looking, t, [true], cfg) == Some(To(s, t, s.m, AwaitingGate(i, s.m.pending[i])))
      && Alone(looking, t, [true, true], cfg) == None
  {
    assert [true] + [] == [true] && [true] + [true] == [true, true];
    Moves(s, t, s.m, Looking(i), true, s.m, AwaitingGate(i, s.m.pending[i]), [], cfg);
    Moves(s, t, s.m, Looking(i), true, s.m, AwaitingGate(i, s.m.pending[i]), [true], cfg);
  }

  lemma PendingOpen(s: Sys, i: Ident)
    requires Inv(s) && i in s.m.pending
    ensures s.m.pending[i] !in s.m.closed
  {
    SingleFlight(s, i);
    var t :| t in s.threads && Dials(s.threads[t], i);
    CoreAt(s, t);
  }
}
