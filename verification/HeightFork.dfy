/**
 The lock is released when an engine leaves a round, so a height can commit two blocks in two rounds.
 This module gives such a run. All three validators are honest; the only thing that goes wrong is that
 messages are slow.
 */
module HeightFork {
  import opened Options
  import opened MapSums
  import opened Validators
  import opened Quorums
  import opened EngineSpec
  import opened Protocol
  import opened HeightLocks

  const Ann: Address := 0
  const Ben: Address := 1
  const Cal: Address := 2

  const Weights: Powers := map[Ann := 1, Ben := 2, Cal := 2]

  /** The stake-weighted schedule of these three validators. */
  function Schedule(height: nat, round: nat): Address {
    var slot := (height + round) % 5;
    if slot < 1 then Ann else if slot < 3 then Ben else Cal
  }

  const Trio := Config(Weights, Schedule)

  lemma WeightOf(s: set<Address>)
    ensures Power(Weights, s) == (if Ann in s then 1 else 0) + (if Ben in s then 2 else 0) + (if Cal in s then 2 else 0)
  {
    var none: map<Address, int> := map[];
    var one := if Ann in s then none[Ann := 1] else none;
    var two := if Ben in s then one[Ben := 2] else one;
    var three := if Cal in s then two[Cal := 2] else two;
    SumUpdate(none, Ann, 1);
    SumUpdate(one, Ben, 2);
    SumUpdate(two, Cal, 2);
    assert three == Part(Weights, s);
  }

  lemma TotalWeight()
    ensures Total(Weights) == 5 && Fits(Weights)
  {
    WeightOf(Weights.Keys);
  }

  lemma MajorityReached(ballots: Ballots, h: Hash)
    requires Ben in ballots && Cal in ballots && ballots[Ben] == ballots[Cal] == h
    ensures Majority(Trio, ballots) == Some(h)
  {
    TotalWeight();
    WeightOf(Voters(ballots, h));
    assert Quorate(Trio, ballots, h);
    OneMajority(Trio, ballots, h);
  }

  lemma MajorityMissing(ballots: Ballots)
    requires Ben !in ballots || Cal !in ballots
    ensures Majority(Trio, ballots) == None
  {
    TotalWeight();
    forall h: Hash ensures !Quorate(Trio, ballots, h) {
      WeightOf(Voters(ballots, h));
    }
  }

  /** An engine of height 1 at the start of the given round. */
  function Fresh(a: Address, round: nat): Engine {
    Engine(a, 1, round, NewRound, 0, None, map[], map[], -1, 0, false)
  }

  function Offer(round: nat, h: Hash): Proposal {
    Proposal(1, round, h, true, Ben)
  }

  function Ballot(kind: VoteType, round: nat, h: Hash, a: Address): Vote {
    Vote(kind, 1, round, h, a)
  }

  /** Prevoting on Ben's offer, with the given ballots counted. */
  function Prevoting(a: Address, round: nat, h: Hash, prevotes: Ballots): Engine {
    Engine(a, 1, round, Prevote, 0, Some(Offer(round, h)), prevotes, map[], -1, 0, false)
  }

  /** Has precommitted `h` after the prevotes of Ben and Cal, and counted the given precommits. */
  function Locked(a: Address, round: nat, h: Hash, prevotes: Ballots, precommits: Ballots): Engine {
    Engine(a, 1, round, Precommit, 0, Some(Offer(round, h)), prevotes, precommits, round, h, false)
  }

  function Judged(round: nat, h: Hash): Validation {
    Validation(1, round, 0, Some(Offer(round, h)), -1, 0)
  }

  /** Only the node at `a` moved; messages were only added, nothing was committed. */
  ghost predicate OnlyMoved(sys: System, next: System, a: Address) {
    && next.nodes.Keys == sys.nodes.Keys
    && (forall b <- sys.nodes.Keys :: b != a ==> next.nodes[b] == sys.nodes[b])
    && sys.sent <= next.sent && sys.proposals <= next.proposals && next.commits == sys.commits
  }

  lemma BenProposes(run: seq<System>, round: nat, h: Hash) returns (longer: seq<System>)
    requires IsRun(Trio, run) && Ben in Last(run).nodes && round < 2
    requires Last(run).nodes[Ben].engine == Fresh(Ben, round)
    ensures IsRun(Trio, longer) && longer[0] == run[0] && OnlyMoved(Last(run), Last(longer), Ben)
    ensures Last(longer).nodes[Ben].engine == Prevoting(Ben, round, h, map[])
    ensures Judged(round, h) in Last(longer).nodes[Ben].validating
    ensures Offer(round, h) in Last(longer).proposals
  {
    assert Schedule(1, round) == Ben;
    var begun := Extend(Trio, run, StartRound(Ben));
    assert Build(1, round) in Last(begun).nodes[Ben].building;
    longer := Extend(Trio, begun, BlockBuilt(Ben, Build(1, round), Some(h)));
  }

  lemma TakesOffer(run: seq<System>, a: Address, round: nat, h: Hash) returns (longer: seq<System>)
    requires IsRun(Trio, run) && a in Last(run).nodes && round < 2
    requires Last(run).nodes[a].engine == Fresh(a, round)
    requires Offer(round, h) in Last(run).proposals
    ensures IsRun(Trio, longer) && longer[0] == run[0] && OnlyMoved(Last(run), Last(longer), a)
    ensures Last(longer).nodes[a].engine == Prevoting(a, round, h, map[])
    ensures Judged(round, h) in Last(longer).nodes[a].validating
  {
    assert Schedule(1, round) == Ben;
    longer := Extend(Trio, run, ReceiveProposal(a, Offer(round, h)));
  }

  lemma CastsPrevote(run: seq<System>, a: Address, round: nat, h: Hash) returns (longer: seq<System>)
    requires IsRun(Trio, run) && a in Last(run).nodes && h != 0
    requires Last(run).nodes[a].engine == Prevoting(a, round, h, map[])
    requires Judged(round, h) in Last(run).nodes[a].validating
    ensures IsRun(Trio, longer) && longer[0] == run[0] && OnlyMoved(Last(run), Last(longer), a)
    ensures Last(longer).nodes[a].engine == Prevoting(a, round, h, map[a := h])
    ensures Ballot(PrevoteType, round, h, a) in Last(longer).sent
  {
    MajorityMissing(map[a := h]);
    longer := Extend(Trio, run, Validated(a, Judged(round, h), true));
  }

  /** A prevote that is not yet a polka. */
  lemma CountsPrevote(run: seq<System>, a: Address, b: Address, round: nat, h: Hash) returns (longer: seq<System>)
    requires IsRun(Trio, run) && a in Last(run).nodes && b in Weights
    requires Last(run).nodes[a].engine == Prevoting(a, round, h, map[])
    requires Ballot(PrevoteType, round, h, b) in Last(run).sent
    ensures IsRun(Trio, longer) && longer[0] == run[0] && OnlyMoved(Last(run), Last(longer), a)
    ensures Last(longer).nodes[a].engine == Prevoting(a, round, h, map[b := h])
  {
    MajorityMissing(map[b := h]);
    longer := Extend(Trio, run, ReceiveVote(a, Ballot(PrevoteType, round, h, b)));
  }

  /** The prevote that completes the polka. */
  lemma SeesPolka(run: seq<System>, a: Address, b: Address, c: Address, round: nat, h: Hash)
    returns (longer: seq<System>)
    requires IsRun(Trio, run) && a in Last(run).nodes && h != 0 && {b, c} == {Ben, Cal} && b != c
    requires Last(run).nodes[a].engine == Prevoting(a, round, h, map[b := h])
    requires Ballot(PrevoteType, round, h, c) in Last(run).sent
    ensures IsRun(Trio, longer) && longer[0] == run[0] && OnlyMoved(Last(run), Last(longer), a)
    ensures Last(longer).nodes[a].engine == Locked(a, round, h, map[b := h, c := h], map[a := h])
    ensures Ballot(PrecommitType, round, h, a) in Last(longer).sent
  {
    assert b in {Ben, Cal} && c in {Ben, Cal} && Ben in {b, c} && Cal in {b, c};
    assert map[b := h][c := h] == map[b := h, c := h];
    MajorityReached(map[b := h, c := h], h);
    MajorityMissing(map[a := h]);
    longer := Extend(Trio, run, ReceiveVote(a, Ballot(PrevoteType, round, h, c)));
  }

  /** A precommit that is not yet a quorum. */
  lemma CountsPrecommit(run: seq<System>, a: Address, b: Address, round: nat, h: Hash, prevotes: Ballots)
    returns (longer: seq<System>)
    requires IsRun(Trio, run) && a in Last(run).nodes && b in Weights && a != b && (Ben !in {a, b} || Cal !in {a, b})
    requires Last(run).nodes[a].engine == Locked(a, round, h, prevotes, map[a := h])
    requires Ballot(PrecommitType, round, h, b) in Last(run).sent
    ensures IsRun(Trio, longer) && longer[0] == run[0] && OnlyMoved(Last(run), Last(longer), a)
    ensures Last(longer).nodes[a].engine == Locked(a, round, h, prevotes, map[a := h, b := h])
  {
    assert map[a := h][b := h] == map[a := h, b := h];
    MajorityMissing(map[a := h, b := h]);
    longer := Extend(Trio, run, ReceiveVote(a, Ballot(PrecommitType, round, h, b)));
  }

  /** The precommit that completes a quorum commits the block. */
  lemma Commits(run: seq<System>, a: Address, c: Address, round: nat, h: Hash, prevotes: Ballots, precommits: Ballots)
    returns (longer: seq<System>)
    requires IsRun(Trio, run) && a in Last(run).nodes && c in Weights && h != 0 && c !in precommits
    requires Ben in precommits[c := h] && Cal in precommits[c := h]
      && precommits[c := h][Ben] == precommits[c := h][Cal] == h
    requires Last(run).nodes[a].engine == Locked(a, round, h, prevotes, precommits)
    requires Ballot(PrecommitType, round, h, c) in Last(run).sent
    ensures IsRun(Trio, longer) && longer[0] == run[0]
    ensures Last(longer).commits == Last(run).commits + {Commitment(a, CommitEvent(1, round, h))}
    ensures Last(longer).nodes.Keys == Last(run).nodes.Keys
    ensures forall b <- Last(run).nodes.Keys :: b != a ==> Last(longer).nodes[b] == Last(run).nodes[b]
    ensures Last(longer).sent == Last(run).sent && Last(longer).proposals == Last(run).proposals
  {
    MajorityReached(precommits[c := h], h);
    longer := Extend(Trio, run, ReceiveVote(a, Ballot(PrecommitType, round, h, c)));
  }

  /** Everybody leaves round 0 without having committed. */
  lemma TimesOut(run: seq<System>, a: Address, h: Hash, prevotes: Ballots, precommits: Ballots)
    returns (longer: seq<System>)
    requires IsRun(Trio, run) && a in Last(run).nodes
    requires Last(run).nodes[a].engine == Locked(a, 0, h, prevotes, precommits)
    ensures IsRun(Trio, longer) && longer[0] == run[0] && OnlyMoved(Last(run), Last(longer), a)
    ensures Last(longer).nodes[a].engine == Fresh(a, 1)
  {
    longer := Extend(Trio, run, Timeout(a));
  }

  /** Ben proposes, Ben and Cal prevote and precommit; nobody has yet counted two precommits. */
  lemma PlayRound(run: seq<System>, round: nat, h: Hash) returns (longer: seq<System>)
    requires IsRun(Trio, run) && Last(run).nodes.Keys == {Ann, Ben, Cal} && round < 2 && h != 0
    requires Last(run).nodes[Ben].engine == Fresh(Ben, round) && Last(run).nodes[Cal].engine == Fresh(Cal, round)
    ensures IsRun(Trio, longer) && longer[0] == run[0]
    ensures Last(longer).nodes.Keys == {Ann, Ben, Cal} && Last(longer).nodes[Ann] == Last(run).nodes[Ann]
    ensures Last(longer).nodes[Ben].engine == Locked(Ben, round, h, map[Ben := h, Cal := h], map[Ben := h])
    ensures Last(longer).nodes[Cal].engine == Locked(Cal, round, h, map[Cal := h, Ben := h], map[Cal := h])
    ensures Offer(round, h) in Last(longer).proposals && Last(longer).commits == Last(run).commits
    ensures Ballot(PrevoteType, round, h, Ben) in Last(longer).sent
      && Ballot(PrevoteType, round, h, Cal) in Last(longer).sent
    ensures Ballot(PrecommitType, round, h, Ben) in Last(longer).sent
      && Ballot(PrecommitType, round, h, Cal) in Last(longer).sent
  {
    var r1 := BenProposes(run, round, h);
    var r2 := CastsPrevote(r1, Ben, round, h);
    var r3 := TakesOffer(r2, Cal, round, h);
    var r4 := CastsPrevote(r3, Cal, round, h);
    var r5 := SeesPolka(r4, Cal, Cal, Ben, round, h);
    longer := SeesPolka(r5, Ben, Ben, Cal, round, h);
  }

  /** Ann sees the polka of round 0 and both precommits behind it. */
  lemma AnnCommits(run: seq<System>, h: Hash) returns (longer: seq<System>)
    requires IsRun(Trio, run) && Ann in Last(run).nodes && h != 0
    requires Last(run).nodes[Ann].engine == Fresh(Ann, 0)
    requires Offer(0, h) in Last(run).proposals
    requires Ballot(PrevoteType, 0, h, Ben) in Last(run).sent && Ballot(PrevoteType, 0, h, Cal) in Last(run).sent
    requires Ballot(PrecommitType, 0, h, Ben) in Last(run).sent && Ballot(PrecommitType, 0, h, Cal) in Last(run).sent
    ensures IsRun(Trio, longer) && longer[0] == run[0]
    ensures Last(longer).nodes.Keys == Last(run).nodes.Keys
    ensures forall b <- Last(run).nodes.Keys :: b != Ann ==> Last(longer).nodes[b] == Last(run).nodes[b]
    ensures Commitment(Ann, CommitEvent(1, 0, h)) in Last(longer).commits
  {
    var r1 := TakesOffer(run, Ann, 0, h);
    var r2 := CountsPrevote(r1, Ann, Ben, 0, h);
    var r3 := SeesPolka(r2, Ann, Ben, Cal, 0, h);
    var r4 := CountsPrecommit(r3, Ann, Ben, 0, h, map[Ben := h, Cal := h]);
    longer := Commits(r4, Ann, Cal, 0, h, map[Ben := h, Cal := h], map[Ann := h, Ben := h]);
  }

  /** Ben and Cal leave round 0 before counting the precommits, and commit another block in round 1. */
  lemma BenCommits(run: seq<System>, h: Hash, g: Hash) returns (longer: seq<System>)
    requires IsRun(Trio, run) && Last(run).nodes.Keys == {Ann, Ben, Cal} && g != 0
    requires Last(run).nodes[Ben].engine == Locked(Ben, 0, h, map[Ben := h, Cal := h], map[Ben := h])
    requires Last(run).nodes[Cal].engine == Locked(Cal, 0, h, map[Cal := h, Ben := h], map[Cal := h])
    ensures IsRun(Trio, longer) && longer[0] == run[0]
    ensures Last(longer).commits == Last(run).commits + {Commitment(Ben, CommitEvent(1, 1, g))}
  {
    var r1 := TimesOut(run, Ben, h, map[Ben := h, Cal := h], map[Ben := h]);
    var r2 := TimesOut(r1, Cal, h, map[Cal := h, Ben := h], map[Cal := h]);
    var r3 := PlayRound(r2, 1, g);
    longer := Commits(r3, Ben, Cal, 1, g, map[Ben := g, Cal := g], map[Ben := g]);
  }

  const Genesis := System(
    map[Ann := Node(Fresh(Ann, 0), {}, {}), Ben := Node(Fresh(Ben, 0), {}, {}), Cal := Node(Fresh(Cal, 0), {}, {})],
    map[], {}, {}, {}, {})

  lemma GenesisIsInitial()
    ensures IsRun(Trio, [Genesis]) && FaultBound(Trio, Genesis)
  {
    TotalWeight();
    WeightOf(Weights.Keys - Genesis.nodes.Keys);
  }

  /**
   A run of three honest validators in which Ann commits block 7 at height 1 and Ben commits block 9 at
   the same height: Ann counts the precommits of round 0, Ben and Cal time out before they do, and drop their locks.
   */
  lemma HeightsCanFork() returns (run: seq<System>)
    ensures IsRun(Trio, run) && FaultBound(Trio, run[0]) && run[0].nodes.Keys == Weights.Keys
    ensures Commitment(Ann, CommitEvent(1, 0, 7)) in Last(run).commits
    ensures Commitment(Ben, CommitEvent(1, 1, 9)) in Last(run).commits
    ensures !HoldsLocks(Trio, run, 1)
  {
    GenesisIsInitial();
    var r1 := PlayRound([Genesis], 0, 7);
    var r2 := AnnCommits(r1, 7);
    run := BenCommits(r2, 7, 9);
    if HoldsLocks(Trio, run, 1) {
      HeightAgreement(Trio, run, Commitment(Ann, CommitEvent(1, 0, 7)), Commitment(Ben, CommitEvent(1, 1, 9)));
    }
  }
}
