/**
 Whole outages: what one goroutine makes of a connection that has died, for every sequence of dial
 answers, when nobody interferes.  And whole openings and closings of channels.
 */
module SessionOutages {
  import opened Wrappers
  import opened Counting
  import opened SessionState
  import opened SessionSteps
  import opened SessionInvariants
  import opened SessionSafety
  import opened SessionRefs
  import opened SessionRuns
  import opened SessionTheorems
  import opened SessionCalls

  function Edit(m: Shared, c: nat, k: Conn): Shared {
    m.(heap := m.heap[c := k])
  }

  // ----- how outages end -----

  /** Failed, with everyone who waits woken; and out of both maps if nobody uses the connection. */
  function GivenUp(m: Shared, c: nat, tear: bool): Shared
    requires c in m.heap
  {
    Edit(m, c, m.heap[c].(phase := Failed)).(
      closed := m.closed + {m.heap[c].done},
      connections := if tear then m.connections - {c} else m.connections,
      connByIdent := if tear then m.connByIdent - {m.heap[c].ident} else m.connByIdent)
  }

  /** Up again in the next generation, with a new signal for the next outage and everyone who waits woken. */
  function BroughtBack(m: Shared, c: nat): Shared
    requires c in m.heap
  {
    var k := m.heap[c];
    Edit(m, c, k.(phase := Connected, generation := k.generation + 1, done := m.nextSignal)).(
      nextSignal := m.nextSignal + 1, closed := m.closed + {k.done})
  }

  function Dialling(m: Shared, c: nat, dials: nat): Shared
    requires c in m.heap
  {
    Edit(m, c, m.heap[c].(dials := m.heap[c].dials + dials))
  }

  lemma FailAddsUp(m: Shared, c: nat)
    requires c in m.heap && m.heap[c].done !in m.closed && c != LOCAL
    ensures c in SetFailed(m, c).heap && SetFailed(m, c).heap[c].done == m.heap[c].done
    ensures Close(SetFailed(m, c), m.heap[c].done) == GivenUp(m, c, false)
    ensures c in GivenUp(m, c, false).heap && Teardown(GivenUp(m, c, false), c) == GivenUp(m, c, true)
  {}

  lemma FailMoves(s: Sys, t: nat, m: Shared, c: nat, tear: bool, rest: seq<bool>, cfg: ReconnectConfig)
    requires c in m.heap
    ensures Alone(To(s, t, m, Failing(c, tear)), t, [true] + rest, cfg)
         == Alone(To(s, t, SetFailed(m, c), ClosingDone(c, tear)), t, rest, cfg)
  {
    Moves(s, t, m, Failing(c, tear), true, SetFailed(m, c), ClosingDone(c, tear), rest, cfg);
  }

  lemma CloseMoves(s: Sys, t: nat, m: Shared, c: nat, tear: bool, rest: seq<bool>, cfg: ReconnectConfig)
    requires c in m.heap
    ensures Alone(To(s, t, m, ClosingDone(c, tear)), t, [true] + rest, cfg)
         == Alone(To(s, t, Close(m, m.heap[c].done), if tear then TearingDown(c) else Stopped), t, rest, cfg)
  {
    Moves(s, t, m, ClosingDone(c, tear), true, Close(m, m.heap[c].done), if tear then TearingDown(c) else Stopped, rest, cfg);
  }

  lemma TearMoves(s: Sys, t: nat, m: Shared, c: nat, cfg: ReconnectConfig)
    requires c in m.heap
    ensures Alone(To(s, t, m, TearingDown(c)), t, [true], cfg) == Some(To(s, t, Teardown(m, c), Stopped))
  {
    Moves(s, t, m, TearingDown(c), true, Teardown(m, c), Stopped, [], cfg);
    assert [true] + [] == [true];
  }

  lemma GivesUp(s: Sys, t: nat, m: Shared, c: nat, cfg: ReconnectConfig)
    requires c in m.heap && m.heap[c].done !in m.closed && c != LOCAL
    ensures Alone(To(s, t, m, Failing(c, false)), t, [true, true], cfg) == Some(To(s, t, GivenUp(m, c, false), Stopped))
    ensures Alone(To(s, t, m, Failing(c, true)), t, [true, true, true], cfg) == Some(To(s, t, GivenUp(m, c, true), Stopped))
  {
    hide *;
    FailAddsUp(m, c);
    FailMoves(s, t, m, c, false, [true], cfg);
    FailMoves(s, t, m, c, true, [true, true], cfg);
    CloseMoves(s, t, SetFailed(m, c), c, false, [], cfg);
    CloseMoves(s, t, SetFailed(m, c), c, true, [true], cfg);
    TearMoves(s, t, GivenUp(m, c, false), c, cfg);
    Rests(To(s, t, GivenUp(m, c, false), Stopped), t, cfg);
    assert [true] + [true] == [true, true] && [true] + [true, true] == [true, true, true] && [true] + [] == [true];
  }

  // ----- the loop -----

  /** The turn at which the loop ends without a dial, and which way it goes. */
  lemma LoopEnds(s: Sys, t: nat, m: Shared, c: nat, a: nat, cfg: ReconnectConfig)
    requires c in m.heap && m.heap[c].done !in m.closed && c != LOCAL
    ensures a >= m.heap[c].cfg.maxRetries ==>
      Alone(To(s, t, m, Looping(c, a)), t, [true, true, true], cfg) == Some(To(s, t, GivenUp(m, c, false), Stopped))
    ensures a < m.heap[c].cfg.maxRetries && !HasChannels(m, c) ==>
      Alone(To(s, t, m, Looping(c, a)), t, [true, true, true, true], cfg) == Some(To(s, t, GivenUp(m, c, true), Stopped))
    ensures a < m.heap[c].cfg.maxRetries && HasChannels(m, c) && s.cancelled ==>
      Alone(To(s, t, m, Looping(c, a)), t, [true, false, true, true], cfg) == Some(To(s, t, GivenUp(m, c, false), Stopped))
  {
    hide *;
    GivesUp(s, t, m, c, cfg);
    assert [true] + [true, true] == [true, true, true] && [true] + [true, true, true] == [true, true, true, true];
    assert [true] + [false, true, true] == [true, false, true, true] && [false] + [true, true] == [false, true, true];
    TurnEnds(s, t, m, c, a, [true, true], cfg);
    TurnEnds(s, t, m, c, a, [true, true, true], cfg);
  }

  lemma TurnEnds(s: Sys, t: nat, m: Shared, c: nat, a: nat, rest: seq<bool>, cfg: ReconnectConfig)
    requires c in m.heap
    ensures a >= m.heap[c].cfg.maxRetries ==>
      Alone(To(s, t, m, Looping(c, a)), t, [true] + rest, cfg) == Alone(To(s, t, m, Failing(c, false)), t, rest, cfg)
    ensures a < m.heap[c].cfg.maxRetries && !HasChannels(m, c) ==>
      Alone(To(s, t, m, Looping(c, a)), t, [true] + rest, cfg) == Alone(To(s, t, m, Failing(c, true)), t, rest, cfg)
    ensures a < m.heap[c].cfg.maxRetries && HasChannels(m, c) && s.cancelled ==>
      Alone(To(s, t, m, Looping(c, a)), t, [true] + ([false] + rest), cfg)
      == Alone(To(s, t, m, Failing(c, false)), t, rest, cfg)
  {
    hide HasChannels, Alone;
    if a >= m.heap[c].cfg.maxRetries {
      Moves(s, t, m, Looping(c, a), true, m, Failing(c, false), rest, cfg);
    } else if !HasChannels(m, c) {
      Moves(s, t, m, Looping(c, a), true, m, Failing(c, true), rest, cfg);
    } else if s.cancelled {
      Moves(s, t, m, Looping(c, a), true, m, Sleeping(c, a), [false] + rest, cfg);
      Moves(s, t, m, Sleeping(c, a), false, m, Failing(c, false), rest, cfg);
    }
  }

  lemma TurnDials(s: Sys, t: nat, m: Shared, c: nat, a: nat, answer: bool, rest: seq<bool>, cfg: ReconnectConfig)
    requires c in m.heap && a < m.heap[c].cfg.maxRetries && HasChannels(m, c)
    ensures Alone(To(s, t, m, Looping(c, a)), t, [true] + ([true] + ([answer] + rest)), cfg)
         == Alone(To(s, t, Dialling(m, c, 1), if answer then Reviving(c) else Looping(c, a + 1)), t, rest, cfg)
  {
    hide HasChannels, Alone;
    Moves(s, t, m, Looping(c, a), true, m, Sleeping(c, a), [true] + ([answer] + rest), cfg);
    Moves(s, t, m, Sleeping(c, a), true, m, Redialing(c, a), [answer] + rest, cfg);
    DialMoves(s, t, m, c, a, answer, rest, cfg);
  }

  lemma DialMoves(s: Sys, t: nat, m: Shared, c: nat, a: nat, answer: bool, rest: seq<bool>, cfg: ReconnectConfig)
    requires c in m.heap
    ensures Alone(To(s, t, m, Redialing(c, a)), t, [answer] + rest, cfg)
         == Alone(To(s, t, Dialling(m, c, 1), if answer then Reviving(c) else Looping(c, a + 1)), t, rest, cfg)
  {
    Moves(s, t, m, Redialing(c, a), answer, Dialling(m, c, 1), if answer then Reviving(c) else Looping(c, a + 1), rest, cfg);
  }

  /** The answers of n turns whose dials all fail. */
  function Failures(n: nat, rest: seq<bool>): seq<bool> {
    if n == 0 then rest else [true] + ([true] + ([false] + Failures(n - 1, rest)))
  }

  lemma FailuresAre(n: nat, rest: seq<bool>)
    ensures Failures(n, rest) == if n == 0 then rest else [true] + ([true] + ([false] + Failures(n - 1, rest)))
  {}

  lemma DialsAddUp(m: Shared, c: nat, n: nat, n': nat)
    requires c in m.heap
    ensures var m1 := Dialling(m, c, n);
      && c in m1.heap && Dialling(m1, c, n') == Dialling(m, c, n + n') && Dialling(m, c, 0) == m
      && m1.heap[c].cfg == m.heap[c].cfg && m1.heap[c].done == m.heap[c].done
      && m1.closed == m.closed && (HasChannels(m1, c) <==> HasChannels(m, c))
  {
    assert Dialling(m, c, 0).heap == m.heap;
    assert Dialling(Dialling(m, c, n), c, n').heap == Dialling(m, c, n + n').heap;
  }

  /** As long as turns are left and a channel uses the connection, every failed dial is followed by the next turn. */
  lemma {:induction false} FailsAndGoesOn(s: Sys, t: nat, m: Shared, c: nat, a: nat, n: nat, rest: seq<bool>,
                                         cfg: ReconnectConfig)
    requires c in m.heap && HasChannels(m, c) && a + n <= m.heap[c].cfg.maxRetries
    ensures Alone(To(s, t, m, Looping(c, a)), t, Failures(n, rest), cfg)
         == Alone(To(s, t, Dialling(m, c, n), Looping(c, a + n)), t, rest, cfg)
    decreases n
  {
    hide *;
    DialsAddUp(m, c, 1, if n == 0 then 0 else n - 1);
    FailuresAre(n, rest);
    if n > 0 {
      TurnDials(s, t, m, c, a, false, Failures(n - 1, rest), cfg);
      FailsAndGoesOn(s, t, Dialling(m, c, 1), c, a + 1, n - 1, rest, cfg);
    }
  }

  lemma RevivesAlone(s: Sys, t: nat, m: Shared, c: nat, cfg: ReconnectConfig)
    requires c in m.heap && m.heap[c].done !in m.closed
    ensures Alone(To(s, t, m, Reviving(c)), t, [true, true], cfg) == Some(To(s, t, BroughtBack(m, c), Stopped))
  {
    var m1 := Revive(m, c);
    assert Close(m1, m.heap[c].done) == BroughtBack(m, c);
    assert [true] + [true] == [true, true] && [true] + [] == [true];
    Moves(s, t, m, Reviving(c), true, m1, ClosingOld(m.heap[c].done), [true], cfg);
    Moves(s, t, m1, ClosingOld(m.heap[c].done), true, BroughtBack(m, c), Stopped, [], cfg);
    hide Revive, BroughtBack;
  }

  /** After n failed dials one succeeds: the connection is up again. */
  lemma LoopReconnects(s: Sys, t: nat, m: Shared, c: nat, n: nat, cfg: ReconnectConfig)
    requires c in m.heap && m.heap[c].done !in m.closed && HasChannels(m, c) && n < m.heap[c].cfg.maxRetries
    ensures c in Dialling(m, c, n + 1).heap
    ensures Alone(To(s, t, m, Looping(c, 0)), t, Failures(n, [true, true, true, true, true]), cfg)
         == Some(To(s, t, BroughtBack(Dialling(m, c, n + 1), c), Stopped))
  {
    hide *;
    DialsAddUp(m, c, n, 1);
    DialsAddUp(m, c, n + 1, 0);
    FailsAndGoesOn(s, t, m, c, 0, n, [true, true, true, true, true], cfg);
    TurnDials(s, t, Dialling(m, c, n), c, n, true, [true, true], cfg);
    RevivesAlone(s, t, Dialling(m, c, n + 1), c, cfg);
    assert [true] + ([true] + ([true] + [true, true])) == [true, true, true, true, true];
  }

  /** All dials fail: the connection stays registered, for a manual retry. */
  lemma LoopGivesUp(s: Sys, t: nat, m: Shared, c: nat, cfg: ReconnectConfig)
    requires c in m.heap && m.heap[c].done !in m.closed && HasChannels(m, c) && c != LOCAL
    requires m.heap[c].cfg.maxRetries >= 0
    ensures var n := m.heap[c].cfg.maxRetries;
      Alone(To(s, t, m, Looping(c, 0)), t, Failures(n, [true, true, true]), cfg)
      == Some(To(s, t, GivenUp(Dialling(m, c, n), c, false), Stopped))
  {
    hide *;
    var n := m.heap[c].cfg.maxRetries;
    DialsAddUp(m, c, n, 0);
    FailsAndGoesOn(s, t, m, c, 0, n, [true, true, true], cfg);
    LoopEnds(s, t, Dialling(m, c, n), c, n, cfg);
  }

  // ----- deaths and retries -----

  /** The connection when its death has just been noticed. */
  function Dead(m: Shared, c: nat): Shared
    requires c in m.heap
  {
    Edit(m, c, m.heap[c].(phase := Reconnecting, deaths := m.heap[c].deaths + [m.heap[c].generation], dials := 0))
  }

  /** A goroutine that watches a connection which is up, and finds it dead, starts its outage. */
  lemma DeathAlone(s: Sys, t: nat, c: nat, rest: seq<bool>, cfg: ReconnectConfig)
    requires t !in s.threads && c in s.m.heap && c != LOCAL && s.m.heap[c].phase == Connected
    ensures Enabled(s, Observe(t, c))
    ensures Alone(Next(s, Observe(t, c)), t, [true] + ([true] + rest), cfg)
         == Alone(To(s, t, Dead(s.m, c), if s.m.heap[c].cfg.enabled then Looping(c, 0) else Failing(c, false)), t, rest, cfg)
    ensures Alone(Next(s, Observe(t, c)), t, [false], cfg) == Some(To(s, t, s.m, Stopped))
  {
    var gen := s.m.heap[c].generation;
    Moves(s, t, s.m, Watching(c, gen), true, Dead(s.m, c), Died(c), [true] + rest, cfg);
    Moves(s, t, Dead(s.m, c), Died(c), true, Dead(s.m, c),
          if s.m.heap[c].cfg.enabled then Looping(c, 0) else Failing(c, false), rest, cfg);
    Moves(s, t, s.m, Watching(c, gen), false, s.m, Stopped, [], cfg);
    assert [false] + [] == [false];
  }

  /** A failed connection whose outage is over can be retried, whatever its settings: a new signal and all dials again. */
  lemma RetryAlone(s: Sys, t: nat, c: nat, rest: seq<bool>, cfg: ReconnectConfig)
    requires t !in s.threads && c in s.m.heap && c in s.m.connections && s.m.heap[c].phase == Failed
    ensures Enabled(s, Retry(t, c))
    ensures Alone(Next(s, Retry(t, c)), t, [true] + rest, cfg)
         == Alone(To(s, t, Edit(s.m, c, s.m.heap[c].(phase := Reconnecting, done := s.m.nextSignal, dials := 0))
                           .(nextSignal := s.m.nextSignal + 1), Looping(c, 0)), t, rest, cfg)
  {
    Moves(s, t, s.m, Retrying(c), true,
          Edit(s.m, c, s.m.heap[c].(phase := Reconnecting, done := s.m.nextSignal, dials := 0))
          .(nextSignal := s.m.nextSignal + 1), Looping(c, 0), rest, cfg);
  }

  /**
   How the outage of connection c, which goroutine t begins to watch, ends: with auto-reconnect off it fails
   at once; with no channel it fails and is forgotten; after n failed dials a good one brings it
   back; and after MaxRetries failed ones it has failed.
   */
  ghost predicate EndsAlone(s: Sys, t: nat, c: nat, n: nat, cfg: ReconnectConfig)
    requires c in s.m.heap && Enabled(s, Observe(t, c))
  {
    var k := s.m.heap[c].cfg;
    var died := Next(s, Observe(t, c));
    var dead := Dead(s.m, c);
    && (!k.enabled ==>
          Alone(died, t, [true] + ([true] + [true, true]), cfg) == Some(To(s, t, GivenUp(dead, c, false), Stopped)))
    && (k.enabled && k.maxRetries > 0 && !HasChannels(s.m, c) ==>
          Alone(died, t, [true] + ([true] + [true, true, true, true]), cfg)
          == Some(To(s, t, GivenUp(dead, c, true), Stopped)))
    && (k.enabled && HasChannels(s.m, c) && n < k.maxRetries ==>
          Alone(died, t, [true] + ([true] + Failures(n, [true, true, true, true, true])), cfg)
          == Some(To(s, t, BroughtBack(Dialling(dead, c, n + 1), c), Stopped)))
    && (k.enabled && HasChannels(s.m, c) && n == k.maxRetries ==>
          Alone(died, t, [true] + ([true] + Failures(n, [true, true, true])), cfg)
          == Some(To(s, t, GivenUp(Dialling(dead, c, n), c, false), Stopped)))
  }

  /** From a connection that is up to the end of its outage, for every sequence of dial answers. */
  lemma OutageAlone(s: Sys, t: nat, c: nat, n: nat, cfg: ReconnectConfig)
    requires Inv(s) && t !in s.threads && c in s.m.heap && c != LOCAL && s.m.heap[c].phase == Connected
    ensures Enabled(s, Observe(t, c))
    ensures EndsAlone(s, t, c, n, cfg)
  {
    OpenSignal(s, c);
    hide *;
    OutageFrom(s, t, c, n, cfg);
  }

  lemma OpenSignal(s: Sys, c: nat)
    requires Inv(s) && c in s.m.heap && s.m.heap[c].phase == Connected
    ensures s.m.heap[c].done !in s.m.closed
  {
    CoreConn(s, c);
  }

  lemma DeadKeeps(m: Shared, c: nat)
    requires c in m.heap
    ensures c in Dead(m, c).heap && Dead(m, c).heap[c].cfg == m.heap[c].cfg && Dead(m, c).closed == m.closed
    ensures Dead(m, c).heap[c].done == m.heap[c].done && (HasChannels(Dead(m, c), c) <==> HasChannels(m, c))
  {}

  lemma OutageFrom(s: Sys, t: nat, c: nat, n: nat, cfg: ReconnectConfig)
    requires t !in s.threads && c in s.m.heap && c != LOCAL && s.m.heap[c].phase == Connected
             && s.m.heap[c].done !in s.m.closed
    ensures Enabled(s, Observe(t, c))
    ensures EndsAlone(s, t, c, n, cfg)
  {
    hide Alone, Failures, GivenUp, BroughtBack, Dialling, Dead, HasChannels, To, Enabled, Next;
    var m := Dead(s.m, c);
    DeadKeeps(s.m, c);
    DeathAlone(s, t, c, [], cfg);
    var k := s.m.heap[c].cfg;
    if !k.enabled {
      DeathAlone(s, t, c, [true, true], cfg);
      GivesUp(s, t, m, c, cfg);
    } else if !HasChannels(s.m, c) {
      DeathAlone(s, t, c, [true, true, true, true], cfg);
      LoopEnds(s, t, m, c, 0, cfg);
    } else if n < k.maxRetries {
      DeathAlone(s, t, c, Failures(n, [true, true, true, true, true]), cfg);
      LoopReconnects(s, t, m, c, n, cfg);
    } else if n == k.maxRetries {
      DeathAlone(s, t, c, Failures(n, [true, true, true]), cfg);
      LoopGivesUp(s, t, m, c, cfg);
    }
  }

  // ----- channels -----

  function Opened(m: Shared, c: nat): Shared
    requires c in m.heap
  {
    Edit(m, c, m.heap[c].(refs := m.heap[c].refs + 1)).(channels := m.channels[m.nextId := c], nextId := m.nextId + 1)
  }

  lemma OpenFrom(s: Sys, t: nat, m: Shared, c: nat, cfg: ReconnectConfig)
    requires c in m.heap
    ensures Alone(To(s, t, m, Opening(c)), t, [true, true], cfg) == Some(To(s, t, Opened(m, c), Stopped))
    ensures Alone(To(s, t, m, Opening(c)), t, [false], cfg) == Some(To(s, t, m, Stopped))
  {
    Moves(s, t, m, Opening(c), true, IncrRefs(m, c), Inserting(c), [true], cfg);
    Moves(s, t, IncrRefs(m, c), Inserting(c), true, Opened(m, c), Stopped, [], cfg);
    Moves(s, t, m, Opening(c), false, m, Stopped, [], cfg);
    assert [true] + [true] == [true, true] && [true] + [] == [true] && [false] + [] == [false];
  }

  /** Opening a channel on a registered connection: one reference and one channel more, or nothing if it fails. */
  lemma OpenAlone(s: Sys, t: nat, c: nat, cfg: ReconnectConfig)
    requires t !in s.threads && c in s.m.heap && c in s.m.connections && c != LOCAL
    ensures Enabled(s, Open(t, c))
    ensures Alone(Next(s, Open(t, c)), t, [true, true], cfg) == Some(To(s, t, Opened(s.m, c), Stopped))
    ensures Alone(Next(s, Open(t, c)), t, [false], cfg) == Some(To(s, t, s.m, Stopped))
  {
    OpenFrom(s, t, s.m, c, cfg);
    hide Alone, Opened;
  }

  /** The local connection, made if it is not there yet. */
  function WithLocal(m: Shared): Shared {
    if LOCAL in m.connections then m
    else
      Edit(m, LOCAL, Conn(Ident("local", ""), ReconnectConfig(false, 0), Connected, 0, m.nextSignal, 0, [], 0)).(
        connections := m.connections + {LOCAL},
        connByIdent := m.connByIdent[Ident("local", "") := LOCAL],
        nextSignal := m.nextSignal + 1)
  }

  /** Opening a local channel makes the one local connection at the first time and uses it afterwards. */
  lemma OpenLocalAlone(s: Sys, t: nat, cfg: ReconnectConfig)
    requires Inv(s) && t !in s.threads
    ensures LOCAL in WithLocal(s.m).heap && LOCAL in WithLocal(s.m).connections && Enabled(s, OpenLocal(t))
    ensures Alone(Next(s, OpenLocal(t)), t, [true, true], cfg) == Some(To(s, t, Opened(WithLocal(s.m), LOCAL), Stopped))
    ensures Alone(Next(s, OpenLocal(t)), t, [false], cfg) == Some(To(s, t, WithLocal(s.m), Stopped))
  {
    CoreMaps(s);
    hide Inv;
    OpenFrom(s, t, WithLocal(s.m), LOCAL, cfg);
    hide Alone, Opened;
  }

  /** One channel less and one reference less. */
  function Released(m: Shared, ch: nat): Shared
    requires ch in m.channels && m.channels[ch] in m.heap
  {
    var c := m.channels[ch];
    Edit(m, c, m.heap[c].(refs := m.heap[c].refs - 1)).(channels := m.channels - {ch})
  }

  lemma CloseFrom(s: Sys, t: nat, ch: nat, cfg: ReconnectConfig)
    requires t !in s.threads && ch in s.m.channels && s.m.channels[ch] in s.m.heap
    ensures Enabled(s, CloseChannel(t, ch))
    ensures var c := s.m.channels[ch];
      var gone := Released(s.m, ch);
      && (c !in s.m.connections ==> Next(s, CloseChannel(t, ch)) == To(s, t, s.m.(channels := s.m.channels - {ch}), Stopped))
      && (c in s.m.connections && s.m.heap[c].refs > 1 ==>
            Alone(Next(s, CloseChannel(t, ch)), t, [true], cfg) == Some(To(s, t, gone, Stopped)))
      && (c in s.m.connections && s.m.heap[c].refs <= 1 ==>
            Alone(Next(s, CloseChannel(t, ch)), t, [true, true], cfg) == Some(To(s, t, Teardown(gone, c), Stopped)))
  {
    var c := s.m.channels[ch];
    if c in s.m.connections {
      var m1 := RemoveChannel(s.m, ch);
      Moves(s, t, m1, Decrementing(c), true, Released(s.m, ch), if LastRef(m1, c) then TearingDown(c) else Stopped, [], cfg);
      Moves(s, t, m1, Decrementing(c), true, Released(s.m, ch), if LastRef(m1, c) then TearingDown(c) else Stopped, [true], cfg);
      TearMoves(s, t, Released(s.m, ch), c, cfg);
      assert [true] + [] == [true] && [true] + [true] == [true, true];
    }
  }

  /**
   Closing a channel: when it was the last one, and no other is being opened or closed, the connection is
   forgotten, unless it is the local one; otherwise the connection stays.
   */
  lemma CloseAlone(s: Sys, t: nat, ch: nat, cfg: ReconnectConfig)
    requires Inv(s) && t !in s.threads && ch in s.m.channels
    ensures s.m.channels[ch] in s.m.heap && Enabled(s, CloseChannel(t, ch))
    ensures var c := s.m.channels[ch];
      var gone := Released(s.m, ch);
      && (c !in s.m.connections ==> Next(s, CloseChannel(t, ch)) == To(s, t, s.m.(channels := s.m.channels - {ch}), Stopped))
      && (c in s.m.connections && Holders(s, c) > 1 ==>
            Alone(Next(s, CloseChannel(t, ch)), t, [true], cfg) == Some(To(s, t, gone, Stopped)))
      && (c in s.m.connections && Holders(s, c) == 1 ==>
            Alone(Next(s, CloseChannel(t, ch)), t, [true, true], cfg)
            == Some(To(s, t, if c == LOCAL then gone
                             else gone.(connections := s.m.connections - {c},
                                        connByIdent := s.m.connByIdent - {s.m.heap[c].ident}), Stopped)))
  {
    RefsFacts(s, ch);
    CloseFrom(s, t, ch, cfg);
    hide Inv, Holders, Alone, Enabled, Next;
  }

  lemma RefsFacts(s: Sys, ch: nat)
    requires Inv(s) && ch in s.m.channels
    ensures var c := s.m.channels[ch];
      c in s.m.heap && (c in s.m.connections ==> s.m.heap[c].refs == Holders(s, c))
  {
    CoreMaps(s);
  }
}
