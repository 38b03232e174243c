/** The draft session: two used-name sets, a round counter and the list of
    locked-in matchups. Odd rounds Atown sends a pair and Pittsburgh
    counters; even rounds the roles swap. Four rounds use up two rosters of
    eight. */
module Draft {
  import opened Roster
  import opened Scoring
  import opened Selection

  datatype Team = Atown | Pittsburgh

  /** The draft is over once the round counter passes this. */
  const RoundLimit: int := 4

  /** The team that sends a pair in `round`: Atown in odd rounds,
      Pittsburgh in even ones. */
  function SenderOf(round: int): (t: Team)
    ensures t == Atown <==> round % 2 == 1
  {
    if round % 2 == 1 then Atown else Pittsburgh
  }

  /** The team that counters in `round`: the one that does not send. */
  function ReceiverOf(round: int): (t: Team)
    ensures t != SenderOf(round)
  {
    if SenderOf(round) == Atown then Pittsburgh else Atown
  }

  /** The receiver is always the other team, and the roles swap every round. */
  lemma {:induction false} RolesAlternate(round: int)
    ensures SenderOf(round) != ReceiverOf(round)
    ensures SenderOf(round + 1) == ReceiverOf(round)
    ensures ReceiverOf(round + 1) == SenderOf(round)
  {
    assert (round + 1) % 2 == 1 <==> round % 2 == 0;
  }

  /** One locked-in match: `{sender_team, sent, counter_team, counter}`. */
  datatype Matchup = Matchup(senderTeam: Team, sent: seq<Player>, counterTeam: Team, counter: seq<Player>)

  /** The four names chosen in the selectboxes for a lock-in: the two sent
      players and the two counter players. */
  datatype Move = Move(p1: string, p2: string, c1: string, c2: string)

  /** The session state together with the two fixed rosters. */
  datatype Session = Session(teamA: seq<Player>, teamB: seq<Player>,
                             usedA: set<string>, usedB: set<string>,
                             round: int, matchups: seq<Matchup>)
  {
    function TeamRoster(t: Team): seq<Player>
    {
      if t == Atown then teamA else teamB
    }

    function Used(t: Team): set<string>
    {
      if t == Atown then usedA else usedB
    }

    /** "All 4 matches locked in": in a consistent session, exactly when
        four matchups have been recorded. */
    predicate IsComplete()
      ensures Consistent(this) ==> (IsComplete() <==> |matchups| >= RoundLimit)
    {
      round > RoundLimit
    }

    function Sender(): Team
    {
      SenderOf(round)
    }

    function Receiver(): Team
    {
      ReceiverOf(round)
    }

    /** `pool_send`: the sending team's roster. */
    function PoolSend(): (r: seq<Player>)
      ensures r == TeamRoster(Sender())
    {
      if Sender() == Atown then teamA else teamB
    }

    /** `pool_recv`: the receiving team's roster. */
    function PoolRecv(): (r: seq<Player>)
      ensures r == TeamRoster(Receiver())
    {
      if Sender() == Atown then teamB else teamA
    }

    /** `used_send`: the names the sending team has used. */
    function UsedSend(): (r: set<string>)
      ensures r == Used(Sender())
    {
      if Sender() == Atown then usedA else usedB
    }

    /** `used_recv`: the names the receiving team has used. */
    function UsedRecv(): (r: set<string>)
      ensures r == Used(Receiver())
    {
      if Sender() == Atown then usedB else usedA
    }

    /** `sent_pair`: the sending roster's entries named `p1` or `p2`. */
    function SentPair(p1: string, p2: string): seq<Player>
    {
      Pick(PoolSend(), {p1, p2})
    }

    /** `counter_pair`: the receiving roster's entries named `c1` or `c2`. */
    function CounterPair(c1: string, c2: string): seq<Player>
    {
      Pick(PoolRecv(), {c1, c2})
    }

    /** The lock-in button: the sender's used set takes the sent names, the
        receiving team's used set takes the counter names, the matchup is
        recorded and the round advances. Nothing is checked against the used
        sets; the selectboxes only offer available names. In terms of roles
        its effects are exactly these, and the rosters stay as they are. */
    function LockIn(m: Move): (t: Session)
      ensures t.Used(Sender()) == Used(Sender()) + Names(SentPair(m.p1, m.p2))
      ensures t.Used(Receiver()) == Used(Receiver()) + Names(CounterPair(m.c1, m.c2))
      ensures t.matchups == matchups + [Matchup(Sender(), SentPair(m.p1, m.p2), Receiver(), CounterPair(m.c1, m.c2))]
      ensures t.round == round + 1
      ensures t.teamA == teamA && t.teamB == teamB
    {
      var sent := SentPair(m.p1, m.p2);
      var counter := CounterPair(m.c1, m.c2);
      var usedA1 := if Sender() == Atown then usedA + Names(sent) else usedA;
      var usedB1 := if Sender() == Atown then usedB else usedB + Names(sent);
      var usedB2 := if Receiver() == Pittsburgh then usedB1 + Names(counter) else usedB1;
      var usedA2 := if Receiver() == Pittsburgh then usedA1 else usedA1 + Names(counter);
      this.(usedA := usedA2, usedB := usedB2, round := round + 1,
            matchups := matchups + [Matchup(Sender(), sent, Receiver(), counter)])
    }
  }

  /** The state the session starts in, and that reset returns to: round 1,
      nothing used, no matchups. It is consistent, not complete, and every
      player of both rosters is available. */
  function Start(teamA: seq<Player>, teamB: seq<Player>): (s: Session)
    ensures Consistent(s) && !s.IsComplete() && s.matchups == []
    ensures s.teamA == teamA && s.teamB == teamB
    ensures Available(teamA, s.usedA) == teamA && Available(teamB, s.usedB) == teamB
  {
    AvailableUnused(teamA);
    AvailableUnused(teamB);
    Session(teamA, teamB, {}, {}, 1, [])
  }

  /** The names team `t` fielded in one matchup. */
  function Fielded(m: Matchup, t: Team): set<string>
  {
    (if m.senderTeam == t then Names(m.sent) else {}) + (if m.counterTeam == t then Names(m.counter) else {})
  }

  /** The names team `t` fielded across a list of matchups. */
  function Locked(ms: seq<Matchup>, t: Team): set<string>
  {
    if ms == [] then {} else Locked(ms[..|ms| - 1], t) + Fielded(ms[|ms| - 1], t)
  }

  /** The invariant of a draft: one matchup per round played, senders and
      receivers as the round parity says, every locked player from the
      roster of the team that fielded them, and each used set exactly the
      names that team has locked in. */
  ghost predicate Consistent(s: Session)
  {
    && s.round == |s.matchups| + 1
    && (forall k :: 0 <= k < |s.matchups| ==>
          s.matchups[k].senderTeam == SenderOf(k + 1) && s.matchups[k].counterTeam == ReceiverOf(k + 1))
    && (forall k :: 0 <= k < |s.matchups| ==>
          Names(s.matchups[k].sent) <= Names(s.TeamRoster(s.matchups[k].senderTeam)) &&
          Names(s.matchups[k].counter) <= Names(s.TeamRoster(s.matchups[k].counterTeam)))
    && s.usedA == Locked(s.matchups, Atown)
    && s.usedB == Locked(s.matchups, Pittsburgh)
  }

  /** Picked entries come from the pool. */
  lemma PickedFromPool(pool: seq<Player>, chosen: set<string>)
    ensures Names(Pick(pool, chosen)) <= Names(pool)
  {
    PickMembers(pool, chosen);
    forall x | x in Names(Pick(pool, chosen)) ensures x in Names(pool) {
      var p :| p in Pick(pool, chosen) && p.name == x;
      assert p in pool;
    }
  }

  /** Appending a matchup adds what each team fielded in it. */
  lemma LockedSnoc(ms: seq<Matchup>, mm: Matchup, t: Team)
    ensures Locked(ms + [mm], t) == Locked(ms, t) + Fielded(mm, t)
  {
    assert (ms + [mm])[..|ms|] == ms;
  }

  /** What the two teams field in the matchup a lock-in records. */
  lemma LockInFielded(s: Session, m: Move)
    ensures var mm := s.LockIn(m).matchups[|s.matchups|];
      && Fielded(mm, s.Sender()) == Names(s.SentPair(m.p1, m.p2))
      && Fielded(mm, s.Receiver()) == Names(s.CounterPair(m.c1, m.c2))
  {
    RolesAlternate(s.round);
  }

  /** Every lock-in keeps the draft consistent. */
  lemma LockInPreservesConsistency(s: Session, m: Move)
    requires Consistent(s)
    ensures Consistent(s.LockIn(m))
  {
    var t := s.LockIn(m);
    var ms := s.matchups;
    var mm := t.matchups[|ms|];
    RolesAlternate(s.round);
    assert t.matchups == ms + [mm];
    forall k | 0 <= k < |t.matchups|
      ensures t.matchups[k].senderTeam == SenderOf(k + 1) && t.matchups[k].counterTeam == ReceiverOf(k + 1)
    {
      if k < |ms| {
        assert t.matchups[k] == ms[k];
      }
    }
    PickedFromPool(s.PoolSend(), {m.p1, m.p2});
    PickedFromPool(s.PoolRecv(), {m.c1, m.c2});
    forall k | 0 <= k < |t.matchups|
      ensures Names(t.matchups[k].sent) <= Names(t.TeamRoster(t.matchups[k].senderTeam))
      ensures Names(t.matchups[k].counter) <= Names(t.TeamRoster(t.matchups[k].counterTeam))
    {
      if k < |ms| {
        assert t.matchups[k] == ms[k];
      }
    }
    LockedSnoc(ms, mm, Atown);
    LockedSnoc(ms, mm, Pittsburgh);
    LockInFielded(s, m);
    assert Fielded(mm, Atown) + Fielded(mm, Pittsburgh) == Fielded(mm, s.Sender()) + Fielded(mm, s.Receiver());
  }

  /** The names a team has locked in all come from its roster. */
  lemma {:induction false} LockedWithinRoster(ms: seq<Matchup>, t: Team, roster: set<string>)
    requires forall k :: 0 <= k < |ms| ==> Fielded(ms[k], t) <= roster
    ensures Locked(ms, t) <= roster
  {
    if ms != [] {
      LockedWithinRoster(ms[..|ms| - 1], t, roster);
    }
  }

  /** Conservation: on each side the used names and the names still
      available split the roster. */
  lemma Conservation(s: Session)
    requires Consistent(s)
    ensures s.usedA <= Names(s.teamA) && s.usedB <= Names(s.teamB)
    ensures Names(Available(s.teamA, s.usedA)) + s.usedA == Names(s.teamA)
    ensures Names(Available(s.teamB, s.usedB)) + s.usedB == Names(s.teamB)
    ensures Names(Available(s.teamA, s.usedA)) * s.usedA == {}
    ensures Names(Available(s.teamB, s.usedB)) * s.usedB == {}
  {
    forall t: Team, k | 0 <= k < |s.matchups| ensures Fielded(s.matchups[k], t) <= Names(s.TeamRoster(t)) {
    }
    LockedWithinRoster(s.matchups, Atown, Names(s.teamA));
    LockedWithinRoster(s.matchups, Pittsburgh, Names(s.teamB));
    AvailableNames(s.teamA, s.usedA);
    AvailableNames(s.teamB, s.usedB);
  }

  /** What the selectboxes allow: two different names still available on
      the sending side and two on the receiving side, while the draft is
      not complete. */
  ghost predicate OfferedMove(s: Session, m: Move)
  {
    && !s.IsComplete()
    && m.p1 in Names(Available(s.PoolSend(), s.UsedSend()))
    && m.p2 in Names(Available(s.PoolSend(), s.UsedSend()))
    && m.p1 != m.p2
    && m.c1 in Names(Available(s.PoolRecv(), s.UsedRecv()))
    && m.c2 in Names(Available(s.PoolRecv(), s.UsedRecv()))
    && m.c1 != m.c2
  }

  /** The session after a sequence of lock-ins. */
  function Run(s: Session, moves: seq<Move>): Session
    decreases moves
  {
    if moves == [] then s else Run(s.LockIn(moves[0]), moves[1..])
  }

  /** Every lock-in of the sequence is one the selectboxes allow. */
  ghost predicate OfferedRun(s: Session, moves: seq<Move>)
    decreases moves
  {
    moves == [] || (OfferedMove(s, moves[0]) && OfferedRun(s.LockIn(moves[0]), moves[1..]))
  }

  /** An offered lock-in uses up exactly two new names on each side. */
  lemma OfferedLockInTakesTwo(s: Session, m: Move)
    requires OfferedMove(s, m)
    ensures |s.LockIn(m).usedA| == |s.usedA| + 2
    ensures |s.LockIn(m).usedB| == |s.usedB| + 2
  {
    AvailableNames(s.PoolSend(), s.UsedSend());
    AvailableNames(s.PoolRecv(), s.UsedRecv());
    PickedNames(s.PoolSend(), {m.p1, m.p2});
    PickedNames(s.PoolRecv(), {m.c1, m.c2});
    TwoNewNames(s.UsedSend(), m.p1, m.p2);
    TwoNewNames(s.UsedRecv(), m.c1, m.c2);
    RolesAlternate(s.round);
  }

  lemma TwoNewNames(used: set<string>, a: string, b: string)
    requires a !in used && b !in used && a != b
    ensures |used + {a, b}| == |used| + 2
  {
    assert used + {a, b} == (used + {a}) + {b};
  }

  /** After offered lock-ins the draft is consistent, the round has advanced
      once per lock-in and each side has used two names per lock-in. */
  lemma {:induction false} OfferedRunTally(s: Session, moves: seq<Move>)
    requires Consistent(s) && OfferedRun(s, moves)
    ensures var t := Run(s, moves);
      && Consistent(t)
      && t.teamA == s.teamA && t.teamB == s.teamB
      && t.round == s.round + |moves|
      && |t.usedA| == |s.usedA| + 2 * |moves|
      && |t.usedB| == |s.usedB| + 2 * |moves|
    decreases moves
  {
    if moves != [] {
      var s' := s.LockIn(moves[0]);
      assert OfferedMove(s, moves[0]) && OfferedRun(s', moves[1..]);
      assert Run(s, moves) == Run(s', moves[1..]);
      LockInPreservesConsistency(s, moves[0]);
      OfferedLockInTakesTwo(s, moves[0]);
      OfferedRunTally(s', moves[1..]);
    }
  }

  /** A subset as large as a finite set is that set. */
  lemma SubsetOfSameSize(a: set<string>, b: set<string>)
    requires a <= b && |a| == |b|
    ensures a == b
  {
    assert b == a + (b - a);
    assert |b - a| == 0;
  }

  /** Exhaustion: with two rosters of eight distinctly named players, four
      offered lock-ins from the start use every name on both sides, leave
      nobody available and complete the draft. */
  lemma Exhaustion(teamA: seq<Player>, teamB: seq<Player>, moves: seq<Move>)
    requires UniqueNames(teamA) && |teamA| == 2 * RoundLimit
    requires UniqueNames(teamB) && |teamB| == 2 * RoundLimit
    requires |moves| == RoundLimit && OfferedRun(Start(teamA, teamB), moves)
    ensures var t := Run(Start(teamA, teamB), moves);
      && t.usedA == Names(teamA) && t.usedB == Names(teamB)
      && Available(teamA, t.usedA) == [] && Available(teamB, t.usedB) == []
      && t.IsComplete()
  {
    var t := Run(Start(teamA, teamB), moves);
    OfferedRunTally(Start(teamA, teamB), moves);
    Conservation(t);
    UniqueNamesCount(teamA);
    UniqueNamesCount(teamB);
    SubsetOfSameSize(t.usedA, Names(teamA));
    SubsetOfSameSize(t.usedB, Names(teamB));
    AvailableNames(teamA, t.usedA);
    AvailableNames(teamB, t.usedB);
    NoNamesNoPlayers(Available(teamA, t.usedA));
    NoNamesNoPlayers(Available(teamB, t.usedB));
  }

  /** Once the draft is complete no lock-in is offered. */
  lemma NothingOfferedWhenComplete(s: Session, m: Move)
    requires s.IsComplete()
    ensures !OfferedMove(s, m)
  {
  }

  /** The two rosters of the trip, handicaps as listed. */
  const AtownRoster: seq<Player> := [
    Player("Farley", 19.0), Player("Fil", 28.7), Player("Sean", 1.4), Player("Tom", 14.2),
    Player("Alexandra", 9.4), Player("Pail", 22.3), Player("Greg", 13.7), Player("Zimmel", 20.6)
  ]

  const PittsburghRoster: seq<Player> := [
    Player("Adawg Maize", 12.6), Player("Beans Kujava", 16.3), Player("Jerry Curl", 13.3),
    Player("Pat Swag", 16.9), Player("Dmac", 5.7), Player("Oobs", 11.9),
    Player("Ribs McClure", 17.9), Player("Bman", 3.8)
  ]

  /** The trip's rosters meet the exhaustion lemma's conditions: eight
      players a side with distinct names. */
  lemma TripRostersAreExhaustible()
    ensures UniqueNames(AtownRoster) && |AtownRoster| == 2 * RoundLimit
    ensures UniqueNames(PittsburghRoster) && |PittsburghRoster| == 2 * RoundLimit
  {
  }

  /** The session as the app holds it: the four session-state entries, over
      two fixed rosters. */
  class DraftSession {
    const teamA: seq<Player>
    const teamB: seq<Player>
    var usedA: set<string>
    var usedB: set<string>
    var round: int
    var matchups: seq<Matchup>

    function State(): Session
      reads this
    {
      Session(teamA, teamB, usedA, usedB, round, matchups)
    }

    ghost predicate Valid()
      reads this
    {
      Consistent(State())
    }

    /** Session-state initialisation: round 1, empty used sets, no matchups. */
    constructor (teamA: seq<Player>, teamB: seq<Player>)
      ensures State() == Start(teamA, teamB)
      ensures Valid()
    {
      this.teamA := teamA;
      this.teamB := teamB;
      usedA := {};
      usedB := {};
      round := 1;
      matchups := [];
    }

    /** The suggested counter pairing for the sent names `p1`, `p2`. The page
        computes it only when both sent selections are non-empty names. */
    method SuggestCounter(p1: string, p2: string) returns (suggested: Option<Pair>)
      requires p1 != "" && p2 != ""
      ensures IsBestCounter(State().SentPair(p1, p2), State().PoolRecv(), State().UsedRecv(), suggested)
    {
      var sender := SenderOf(round);
      var poolSend := if sender == Atown then teamA else teamB;
      var poolRecv := if sender == Atown then teamB else teamA;
      var usedRecv := if sender == Atown then usedB else usedA;
      var sentPair := Pick(poolSend, {p1, p2});
      suggested := BestCounter(sentPair, poolRecv, usedRecv);
    }

    /** Locks in the match for the four selected names. */
    method LockIn(p1: string, p2: string, c1: string, c2: string)
      requires Valid() && !State().IsComplete()
      requires p1 != "" && p2 != ""
      modifies this
      ensures Valid()
      ensures State() == old(State()).LockIn(Move(p1, p2, c1, c2))
    {
      var sender := SenderOf(round);
      var receiver := if sender == Atown then Pittsburgh else Atown;
      var poolSend := if sender == Atown then teamA else teamB;
      var poolRecv := if sender == Atown then teamB else teamA;
      var sentPair := Pick(poolSend, {p1, p2});
      var counterPair := Pick(poolRecv, {c1, c2});
      if sender == Atown {
        usedA := usedA + Names(sentPair);
      } else {
        usedB := usedB + Names(sentPair);
      }
      if receiver == Pittsburgh {
        usedB := usedB + Names(counterPair);
      } else {
        usedA := usedA + Names(counterPair);
      }
      matchups := matchups + [Matchup(sender, sentPair, receiver, counterPair)];
      round := round + 1;
      LockInPreservesConsistency(old(State()), Move(p1, p2, c1, c2));
    }

    /** The reset button, shown only once the draft is complete: clearing
        the session state, after which it is initialised afresh. */
    method Reset()
      requires State().IsComplete()
      modifies this
      ensures State() == Start(teamA, teamB)
      ensures Valid()
    {
      usedA := {};
      usedB := {};
      round := 1;
      matchups := [];
    }
  }
}
