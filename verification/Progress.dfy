/**
 Dew-BFT never gets stuck for good. From every reachable state in which the honest validators are at one height, and
 have more than two thirds of the power, a round with an honest proposer can still bring all of them to commit.
 */
module Progress {
  import opened Options
  import opened Validators
  import opened Quorums
  import opened EngineSpec
  import opened Protocol
  import HeightChain

  /** The round to decide in, and the block to decide. */
  datatype Goal = Goal(height: nat, round: nat, proposer: Address, block: Hash)

  function OfferOf(g: Goal): Proposal {
    Proposal(g.height, g.round, g.block, true, g.proposer)
  }

  function BallotOf(g: Goal, kind: VoteType, a: Address): Vote {
    Vote(kind, g.height, g.round, g.block, a)
  }

  ghost predicate AllFor(ballots: Ballots, x: Hash) {
    forall a <- ballots.Keys :: ballots[a] == x
  }

  /* ---------- majorities ---------- */

  lemma OnlyMajority(cfg: Config, ballots: Ballots, x: Hash)
    requires Fits(cfg.powers) && AllFor(ballots, x)
    ensures Majority(cfg, ballots) == None || Majority(cfg, ballots) == Some(x)
  {
    if Majority(cfg, ballots).Some? {
      var y := Majority(cfg, ballots).value;
      assert Quorate(cfg, ballots, y);
      TestIsQuorum(cfg.powers, Voters(ballots, y));
      NoneIsNoQuorum(cfg.powers);
      assert y != x ==> Voters(ballots, y) == {};
    }
  }

  lemma NoneIsNoQuorum(powers: Powers)
    requires Fits(powers)
    ensures !IsQuorum(powers, {})
  {
    assert Part(powers, {}) == map[];
  }

  lemma QuorumIsMajority(cfg: Config, ballots: Ballots, x: Hash, q: set<Address>)
    requires Fits(cfg.powers) && AllFor(ballots, x) && IsQuorum(cfg.powers, q) && q <= ballots.Keys
    ensures Majority(cfg, ballots) == Some(x)
  {
    assert Voters(ballots, x) == ballots.Keys;
    PowerSplit(cfg.powers, ballots.Keys, q);
    assert ballots.Keys * q == q;
    PowerBounded(cfg.powers, ballots.Keys - q);
    TestIsQuorum(cfg.powers, Voters(ballots, x));
    OneMajority(cfg, ballots, x);
  }

  /* ---------- one engine ---------- */

  /** In the goal's round with the goal's block for a proposal, and no other votes counted. */
  ghost predicate InRound(g: Goal, e: Engine) {
    && e.height == g.height && e.round == g.round && e.proposal == Some(OfferOf(g)) && !e.committed
    && AllFor(e.prevotes, g.block) && AllFor(e.precommits, g.block)
  }

  /** And no majority left unanswered. */
  ghost predicate OnTrack(cfg: Config, g: Goal, e: Engine) {
    && InRound(g, e)
    && (|| (e.step == Prevote && Majority(cfg, e.prevotes) == None)
        || (e.step == Precommit && Majority(cfg, e.precommits) == None))
  }

  function CommitOf(g: Goal): CommitEvent {
    CommitEvent(g.height, g.round, g.block)
  }

  lemma PrecommitsTrack(cfg: Config, g: Goal, e: Engine)
    requires Fits(cfg.powers) && g.block != 0 && InRound(g, e) && e.step == Precommit
    ensures
      var (e', commit) := TryAfterPrecommit(cfg, e);
      if commit.None? then e' == e && OnTrack(cfg, g, e) else commit == Some(CommitOf(g))
  {
    OnlyMajority(cfg, e.precommits, g.block);
  }

  lemma PrevotesTrack(cfg: Config, g: Goal, e: Engine)
    requires Fits(cfg.powers) && g.block != 0 && InRound(g, e) && e.step == Prevote
    ensures
      var (e', box) := TryAfterPrevote(cfg, e);
      && (box.commit == None ==>
            OnTrack(cfg, g, e') && e'.prevotes == e.prevotes && e.precommits.Keys <= e'.precommits.Keys)
      && (box.commit.Some? ==> box.commit == Some(CommitOf(g)))
      && (box.commit.Some? || e'.step == Precommit ==> box.precommit == Some(BallotOf(g, PrecommitType, e.address)))
  {
    OnlyMajority(cfg, e.prevotes, g.block);
    if Majority(cfg, e.prevotes).Some? {
      PrecommitsTrack(cfg, g, CastPrecommit(e, g.block));
    }
  }

  /* ---------- one node ---------- */

  ghost predicate Done(sys: System, g: Goal, a: Address) {
    Commitment(a, CommitOf(g)) in sys.commits
  }

  /** The node has committed the block, or is on track to it; once past Prevote its precommit is out. */
  ghost predicate OnPath(cfg: Config, sys: System, g: Goal, a: Address) {
    && a in sys.nodes && sys.nodes[a].engine.address == a
    && (Done(sys, g, a) || OnTrack(cfg, g, sys.nodes[a].engine))
    && (Done(sys, g, a) || sys.nodes[a].engine.step == Precommit ==> BallotOf(g, PrecommitType, a) in sys.sent)
  }

  /** Only one node moves; messages and commits are only added, and no one else's commits. */
  ghost predicate Acts(sys: System, next: System, a: Address) {
    && OnlyAt(sys, next, a)
    && sys.sent <= next.sent && sys.proposals <= next.proposals && sys.commits <= next.commits
    && (forall c <- next.commits :: c in sys.commits || c.validator == a)
  }

  lemma ActsAlone(cfg: Config, sys: System, act: Action)
    requires Enabled(sys, act)
    ensures Acts(sys, Next(cfg, sys, act), act.at)
  {
  }

  lemma ActsTogether(sys: System, mid: System, next: System, a: Address)
    requires Acts(sys, mid, a) && Acts(mid, next, a)
    ensures Acts(sys, next, a)
  {
  }

  /** A node that did not move stays on its path. */
  lemma StaysOnPath(cfg: Config, sys: System, next: System, g: Goal, a: Address, b: Address)
    requires OnPath(cfg, sys, g, b) && Acts(sys, next, a) && a != b
    ensures OnPath(cfg, next, g, b)
  {
  }

  /** The vote is counted by the node, or the node is done. */
  ghost predicate Heard(sys: System, g: Goal, kind: VoteType, a: Address, b: Address) {
    a in sys.nodes && (Done(sys, g, a) ||
      b in (if kind == PrevoteType then sys.nodes[a].engine.prevotes else sys.nodes[a].engine.precommits).Keys)
  }

  /** What was heard before is still heard. */
  ghost predicate Remembers(sys: System, next: System, g: Goal, a: Address) {
    forall kind, b :: Heard(sys, g, kind, a, b) ==> Heard(next, g, kind, a, b)
  }

  ghost predicate MayDeliver(cfg: Config, sys: System, g: Goal, kind: VoteType, b: Address) {
    b in cfg.powers && b in sys.nodes && BallotOf(g, kind, b) in sys.sent
  }

  lemma HearPrecommit(cfg: Config, sys: System, g: Goal, a: Address, b: Address)
    requires Fits(cfg.powers) && g.block != 0 && OnPath(cfg, sys, g, a) && MayDeliver(cfg, sys, g, PrecommitType, b)
    requires !Done(sys, g, a) && b !in sys.nodes[a].engine.precommits
    ensures
      var act := ReceiveVote(a, BallotOf(g, PrecommitType, b));
      && Enabled(sys, act)
      && var next := Next(cfg, sys, act);
         OnPath(cfg, next, g, a) && Heard(next, g, PrecommitType, a, b) && Remembers(sys, next, g, a)
  {
    var e := sys.nodes[a].engine;
    var e1 := e.(precommits := AddBallot(e.precommits, b, g.block));
    assert InRound(g, e1);
    if e.step == Precommit {
      PrecommitsTrack(cfg, g, e1);
    }
    hide Majority;
  }

  lemma HearPrevote(cfg: Config, sys: System, g: Goal, a: Address, b: Address)
    requires Fits(cfg.powers) && g.block != 0 && OnPath(cfg, sys, g, a) && MayDeliver(cfg, sys, g, PrevoteType, b)
    requires !Done(sys, g, a) && b !in sys.nodes[a].engine.prevotes
    ensures
      var act := ReceiveVote(a, BallotOf(g, PrevoteType, b));
      && Enabled(sys, act)
      && var next := Next(cfg, sys, act);
         OnPath(cfg, next, g, a) && Heard(next, g, PrevoteType, a, b) && Remembers(sys, next, g, a)
  {
    var e := sys.nodes[a].engine;
    var e1 := e.(prevotes := AddBallot(e.prevotes, b, g.block));
    assert InRound(g, e1);
    if e.step == Prevote {
      PrevotesTrack(cfg, g, e1);
    }
    hide Majority, TryAfterPrecommit;
  }

  /** Delivering one vote, unless it makes no difference any more. */
  lemma Deliver(cfg: Config, run: seq<System>, g: Goal, kind: VoteType, a: Address, b: Address)
    returns (longer: seq<System>)
    requires Fits(cfg.powers) && IsRun(cfg, run) && g.block != 0
    requires OnPath(cfg, Last(run), g, a) && MayDeliver(cfg, Last(run), g, kind, b)
    ensures IsRun(cfg, longer) && run <= longer && Acts(Last(run), Last(longer), a)
    ensures OnPath(cfg, Last(longer), g, a) && Heard(Last(longer), g, kind, a, b)
    ensures Remembers(Last(run), Last(longer), g, a)
  {
    var sys := Last(run);
    if Heard(sys, g, kind, a, b) {
      return run;
    }
    if kind == PrevoteType {
      HearPrevote(cfg, sys, g, a, b);
    } else {
      HearPrecommit(cfg, sys, g, a, b);
    }
    hide *;
    longer := Extend(cfg, run, ReceiveVote(a, BallotOf(g, kind, b)));
    ActsAlone(cfg, sys, ReceiveVote(a, BallotOf(g, kind, b)));
  }

  /** Delivering the votes of a set of validators. */
  lemma {:induction false} DeliverAll(cfg: Config, run: seq<System>, g: Goal, kind: VoteType, a: Address,
                                      from: set<Address>)
    returns (longer: seq<System>)
    requires Fits(cfg.powers) && IsRun(cfg, run) && g.block != 0 && OnPath(cfg, Last(run), g, a)
    requires forall b <- from :: MayDeliver(cfg, Last(run), g, kind, b)
    ensures IsRun(cfg, longer) && run <= longer && Acts(Last(run), Last(longer), a)
    ensures OnPath(cfg, Last(longer), g, a) && forall b <- from :: Heard(Last(longer), g, kind, a, b)
    ensures Remembers(Last(run), Last(longer), g, a)
    decreases |from|
  {
    if from == {} {
      return run;
    }
    var b :| b in from;
    var shorter := DeliverAll(cfg, run, g, kind, a, from - {b});
    assert MayDeliver(cfg, Last(shorter), g, kind, b);
    hide IsRun, OnPath, Heard, MayDeliver, Fits;
    longer := Deliver(cfg, shorter, g, kind, a, b);
    ActsTogether(Last(run), Last(shorter), Last(longer), a);
  }

  /* ---------- all nodes: votes ---------- */

  ghost predicate AllOnPath(cfg: Config, sys: System, g: Goal) {
    forall a <- sys.nodes.Keys :: OnPath(cfg, sys, g, a)
  }

  ghost predicate AllSent(cfg: Config, sys: System, g: Goal, kind: VoteType) {
    forall b <- sys.nodes.Keys :: MayDeliver(cfg, sys, g, kind, b)
  }

  /** The validators have each heard all honest votes of the kind. */
  ghost predicate AllHeard(sys: System, g: Goal, kind: VoteType, who: set<Address>) {
    forall a <- who, b <- sys.nodes.Keys :: Heard(sys, g, kind, a, b)
  }

  /** Nothing said or heard is lost. */
  ghost predicate Keeps(sys: System, next: System, g: Goal) {
    && next.nodes.Keys == sys.nodes.Keys && sys.sent <= next.sent
    && forall a <- sys.nodes.Keys :: Remembers(sys, next, g, a)
  }

  lemma OthersRemember(sys: System, next: System, g: Goal, a: Address, b: Address)
    requires Acts(sys, next, a) && b != a
    ensures Remembers(sys, next, g, b)
  {
  }

  lemma OneHears(cfg: Config, sys: System, next: System, g: Goal, a: Address)
    requires AllOnPath(cfg, sys, g) && Acts(sys, next, a) && OnPath(cfg, next, g, a) && Remembers(sys, next, g, a)
    ensures AllOnPath(cfg, next, g) && Keeps(sys, next, g)
  {
    forall b <- next.nodes.Keys ensures OnPath(cfg, next, g, b) && Remembers(sys, next, g, b) {
      if b != a {
        StaysOnPath(cfg, sys, next, g, a, b);
        OthersRemember(sys, next, g, a, b);
      }
    }
  }

  lemma SentStays(cfg: Config, sys: System, next: System, g: Goal, kind: VoteType)
    requires AllSent(cfg, sys, g, kind) && next.nodes.Keys == sys.nodes.Keys && sys.sent <= next.sent
    ensures AllSent(cfg, next, g, kind)
  {
    forall b <- next.nodes.Keys ensures MayDeliver(cfg, next, g, kind, b) {
      assert MayDeliver(cfg, sys, g, kind, b);
    }
  }

  lemma HeardStays(sys: System, next: System, g: Goal, kind: VoteType, who: set<Address>)
    requires AllHeard(sys, g, kind, who) && Keeps(sys, next, g) && who <= sys.nodes.Keys
    ensures AllHeard(next, g, kind, who)
  {
    forall a <- who, b <- next.nodes.Keys ensures Heard(next, g, kind, a, b) {
      assert Heard(sys, g, kind, a, b) && Remembers(sys, next, g, a);
    }
  }

  lemma KeepsTogether(sys: System, mid: System, next: System, g: Goal)
    requires Keeps(sys, mid, g) && Keeps(mid, next, g)
    ensures Keeps(sys, next, g)
  {
    forall a <- sys.nodes.Keys ensures Remembers(sys, next, g, a) {
      assert Remembers(sys, mid, g, a) && Remembers(mid, next, g, a);
    }
  }

  /** Every validator of a set hears all honest votes of a kind. */
  lemma {:induction false} HearAll(cfg: Config, run: seq<System>, g: Goal, kind: VoteType, who: set<Address>)
    returns (longer: seq<System>)
    requires Fits(cfg.powers) && IsRun(cfg, run) && g.block != 0 && who <= Last(run).nodes.Keys
    requires AllOnPath(cfg, Last(run), g) && AllSent(cfg, Last(run), g, kind)
    ensures IsRun(cfg, longer) && run <= longer && Keeps(Last(run), Last(longer), g)
    ensures AllOnPath(cfg, Last(longer), g) && AllHeard(Last(longer), g, kind, who)
    decreases |who|
  {
    if who == {} {
      return run;
    }
    var a :| a in who;
    var shorter := HearAll(cfg, run, g, kind, who - {a});
    var sys := Last(shorter);
    SentStays(cfg, Last(run), sys, g, kind);
    assert OnPath(cfg, sys, g, a) && forall b <- sys.nodes.Keys :: MayDeliver(cfg, sys, g, kind, b);
    hide IsRun, OnPath, Heard, MayDeliver, Fits, Remembers;
    longer := DeliverAll(cfg, shorter, g, kind, a, sys.nodes.Keys);
    OneHears(cfg, sys, Last(longer), g, a);
    HeardStays(sys, Last(longer), g, kind, who - {a});
    KeepsTogether(Last(run), sys, Last(longer), g);
  }

  /** With all prevotes of a quorum heard the precommit is out. */
  lemma PrevotesLeadOn(cfg: Config, sys: System, g: Goal, a: Address)
    requires Fits(cfg.powers) && IsQuorum(cfg.powers, sys.nodes.Keys) && OnPath(cfg, sys, g, a)
    requires AllHeard(sys, g, PrevoteType, {a})
    ensures Done(sys, g, a) || sys.nodes[a].engine.step == Precommit
    ensures BallotOf(g, PrecommitType, a) in sys.sent
  {
    var e := sys.nodes[a].engine;
    if !Done(sys, g, a) {
      assert forall b <- sys.nodes.Keys :: Heard(sys, g, PrevoteType, a, b);
      QuorumIsMajority(cfg, e.prevotes, g.block, sys.nodes.Keys);
    }
  }

  /** With all precommits of a quorum heard as well the block is committed. */
  lemma PrecommitsLeadOn(cfg: Config, sys: System, g: Goal, a: Address)
    requires Fits(cfg.powers) && IsQuorum(cfg.powers, sys.nodes.Keys) && OnPath(cfg, sys, g, a)
    requires AllHeard(sys, g, PrevoteType, {a}) && AllHeard(sys, g, PrecommitType, {a})
    ensures Done(sys, g, a)
  {
    PrevotesLeadOn(cfg, sys, g, a);
    var e := sys.nodes[a].engine;
    if !Done(sys, g, a) {
      assert forall b <- sys.nodes.Keys :: Heard(sys, g, PrecommitType, a, b);
      QuorumIsMajority(cfg, e.precommits, g.block, sys.nodes.Keys);
      assert false;
    }
  }

  /** From the moment all honest prevotes for the block are out. */
  lemma VotesDecide(cfg: Config, run: seq<System>, g: Goal) returns (longer: seq<System>)
    requires Fits(cfg.powers) && IsRun(cfg, run) && g.block != 0
    requires Last(run).nodes.Keys <= cfg.powers.Keys && IsQuorum(cfg.powers, Last(run).nodes.Keys)
    requires AllOnPath(cfg, Last(run), g) && AllSent(cfg, Last(run), g, PrevoteType)
    ensures IsRun(cfg, longer) && run <= longer && Last(longer).nodes.Keys == Last(run).nodes.Keys
    ensures forall a <- Last(run).nodes.Keys :: Done(Last(longer), g, a)
  {
    var all := Last(run).nodes.Keys;
    hide IsRun, OnPath, Heard, Fits, Remembers, Done;
    var mid := HearAll(cfg, run, g, PrevoteType, all);
    forall b <- all ensures MayDeliver(cfg, Last(mid), g, PrecommitType, b) {
      assert OnPath(cfg, Last(mid), g, b);
      assert AllHeard(Last(mid), g, PrevoteType, {b});
      PrevotesLeadOn(cfg, Last(mid), g, b);
    }
    longer := HearAll(cfg, mid, g, PrecommitType, all);
    HeardStays(Last(mid), Last(longer), g, PrevoteType, all);
    forall a <- all ensures Done(Last(longer), g, a) {
      assert OnPath(cfg, Last(longer), g, a);
      assert AllHeard(Last(longer), g, PrevoteType, {a}) && AllHeard(Last(longer), g, PrecommitType, {a});
      PrecommitsLeadOn(cfg, Last(longer), g, a);
    }
  }

  /* ---------- all nodes: prevotes ---------- */

  function Judged(g: Goal, parent: Hash): Validation {
    Validation(g.height, g.round, parent, Some(OfferOf(g)), -1, 0)
  }

  /** The node has the offer and is validating it; it has counted nothing. */
  ghost predicate Ready(sys: System, g: Goal, a: Address) {
    && a in sys.nodes && sys.nodes[a].engine.address == a && !Done(sys, g, a)
    && var e := sys.nodes[a].engine;
       && InRound(g, e) && e.step == Prevote && e.prevotes == map[] && e.precommits == map[]
       && Judged(g, e.parent) in sys.nodes[a].validating
  }

  ghost predicate Cast(cfg: Config, sys: System, g: Goal, a: Address) {
    OnPath(cfg, sys, g, a) && BallotOf(g, PrevoteType, a) in sys.sent
  }

  lemma CastOne(cfg: Config, sys: System, g: Goal, a: Address)
    requires Fits(cfg.powers) && g.block != 0 && Ready(sys, g, a)
    ensures
      var act := Validated(a, Judged(g, sys.nodes[a].engine.parent), true);
      Enabled(sys, act) && Cast(cfg, Next(cfg, sys, act), g, a)
  {
    var e := sys.nodes[a].engine;
    var e1 := e.(prevotes := AddBallot(e.prevotes, a, g.block));
    assert InRound(g, e1);
    PrevotesTrack(cfg, g, e1);
    hide Majority, TryAfterPrecommit;
  }

  /** Validators of the set have cast their prevotes, the others are ready to. */
  ghost predicate Casting(cfg: Config, sys: System, g: Goal, who: set<Address>) {
    forall a <- sys.nodes.Keys :: if a in who then Cast(cfg, sys, g, a) else Ready(sys, g, a)
  }

  lemma CastStep(cfg: Config, sys: System, next: System, g: Goal, who: set<Address>, a: Address)
    requires Casting(cfg, sys, g, who) && Acts(sys, next, a) && Cast(cfg, next, g, a)
    ensures Casting(cfg, next, g, who + {a})
  {
    forall b <- next.nodes.Keys ensures if b in who + {a} then Cast(cfg, next, g, b) else Ready(next, g, b) {
      if b != a && b in who {
        StaysOnPath(cfg, sys, next, g, a, b);
      }
    }
  }

  lemma {:induction false} CastAll(cfg: Config, run: seq<System>, g: Goal, who: set<Address>)
    returns (longer: seq<System>)
    requires Fits(cfg.powers) && IsRun(cfg, run) && g.block != 0 && who <= Last(run).nodes.Keys
    requires Casting(cfg, Last(run), g, {})
    ensures IsRun(cfg, longer) && run <= longer && Last(longer).nodes.Keys == Last(run).nodes.Keys
    ensures Casting(cfg, Last(longer), g, who)
    decreases |who|
  {
    if who == {} {
      return run;
    }
    var a :| a in who;
    var shorter := CastAll(cfg, run, g, who - {a});
    var sys := Last(shorter);
    assert Ready(sys, g, a);
    var act := Validated(a, Judged(g, sys.nodes[a].engine.parent), true);
    hide IsRun, Fits, Cast, Ready, Next, Enabled;
    CastOne(cfg, sys, g, a);
    longer := Extend(cfg, shorter, act);
    ActsAlone(cfg, sys, act);
    CastStep(cfg, sys, Last(longer), g, who - {a}, a);
    assert who - {a} + {a} == who;
  }

  /* ---------- all nodes: the proposal ---------- */

  /** The node waits at the start of the goal's round. */
  ghost predicate AtStart(sys: System, g: Goal, a: Address) {
    && a in sys.nodes && !Done(sys, g, a)
    && var e := sys.nodes[a].engine;
       e == Engine(a, g.height, g.round, NewRound, e.parent, None, map[], map[], -1, 0, false)
  }

  lemma TakeOne(cfg: Config, sys: System, g: Goal, a: Address)
    requires AtStart(sys, g, a) && OfferOf(g) in sys.proposals && cfg.proposer(g.height, g.round) == g.proposer
    ensures Enabled(sys, ReceiveProposal(a, OfferOf(g))) && Ready(Next(cfg, sys, ReceiveProposal(a, OfferOf(g))), g, a)
  {
  }

  lemma StartOne(cfg: Config, sys: System, g: Goal)
    requires AtStart(sys, g, g.proposer) && cfg.proposer(g.height, g.round) == g.proposer
    ensures
      var a := g.proposer;
      && Enabled(sys, StartRound(a))
      && var next := Next(cfg, sys, StartRound(a));
         && a in next.nodes && !Done(next, g, a) && Build(g.height, g.round) in next.nodes[a].building
         && next.nodes[a].engine == sys.nodes[a].engine.(step := Propose)
  {
  }

  lemma OfferOne(cfg: Config, sys: System, g: Goal, parent: Hash)
    requires g.proposer in sys.nodes && !Done(sys, g, g.proposer)
    requires Build(g.height, g.round) in sys.nodes[g.proposer].building
    requires sys.nodes[g.proposer].engine ==
      Engine(g.proposer, g.height, g.round, Propose, parent, None, map[], map[], -1, 0, false)
    ensures
      var act := BlockBuilt(g.proposer, Build(g.height, g.round), Some(g.block));
      && Enabled(sys, act)
      && Ready(Next(cfg, sys, act), g, g.proposer) && OfferOf(g) in Next(cfg, sys, act).proposals
  {
  }

  lemma Offer(cfg: Config, run: seq<System>, g: Goal) returns (longer: seq<System>)
    requires IsRun(cfg, run) && AtStart(Last(run), g, g.proposer) && cfg.proposer(g.height, g.round) == g.proposer
    ensures IsRun(cfg, longer) && run <= longer && Acts(Last(run), Last(longer), g.proposer)
    ensures Ready(Last(longer), g, g.proposer) && OfferOf(g) in Last(longer).proposals
  {
    var a, sys := g.proposer, Last(run);
    StartOne(cfg, sys, g);
    var parent := sys.nodes[a].engine.parent;
    assert sys.nodes[a].engine.(step := Propose) ==
      Engine(a, g.height, g.round, Propose, parent, None, map[], map[], -1, 0, false);
    hide IsRun, Next, Enabled, Ready, Done;
    var begun := Extend(cfg, run, StartRound(a));
    ActsAlone(cfg, sys, StartRound(a));
    OfferOne(cfg, Last(begun), g, parent);
    longer := Extend(cfg, begun, BlockBuilt(a, Build(g.height, g.round), Some(g.block)));
    ActsAlone(cfg, Last(begun), BlockBuilt(a, Build(g.height, g.round), Some(g.block)));
    ActsTogether(sys, Last(begun), Last(longer), a);
  }

  /** Validators of the set have the offer, the others wait. */
  ghost predicate Taking(sys: System, g: Goal, who: set<Address>) {
    && OfferOf(g) in sys.proposals
    && forall a <- sys.nodes.Keys :: if a in who then Ready(sys, g, a) else AtStart(sys, g, a)
  }

  lemma TakeStep(sys: System, next: System, g: Goal, who: set<Address>, a: Address)
    requires forall b <- sys.nodes.Keys :: if b in who then Ready(sys, g, b) else AtStart(sys, g, b)
    requires Acts(sys, next, a) && Ready(next, g, a) && OfferOf(g) in next.proposals
    ensures Taking(next, g, who + {a})
  {
  }

  ghost predicate AllAtStart(sys: System, g: Goal) {
    forall a <- sys.nodes.Keys :: AtStart(sys, g, a)
  }

  lemma TakeFirst(cfg: Config, run: seq<System>, g: Goal) returns (longer: seq<System>)
    requires IsRun(cfg, run) && g.proposer in Last(run).nodes && cfg.proposer(g.height, g.round) == g.proposer
    requires AllAtStart(Last(run), g)
    ensures IsRun(cfg, longer) && run <= longer && Last(longer).nodes.Keys == Last(run).nodes.Keys
    ensures Taking(Last(longer), g, {g.proposer})
  {
    var sys := Last(run);
    hide IsRun, Ready, AtStart;
    longer := Offer(cfg, run, g);
    TakeStep(sys, Last(longer), g, {}, g.proposer);
    assert {} + {g.proposer} == {g.proposer};
  }

  lemma TakeMore(cfg: Config, run: seq<System>, g: Goal, who: set<Address>, a: Address) returns (longer: seq<System>)
    requires IsRun(cfg, run) && Taking(Last(run), g, who) && a in Last(run).nodes && a !in who
    requires cfg.proposer(g.height, g.round) == g.proposer
    ensures IsRun(cfg, longer) && run <= longer && Last(longer).nodes.Keys == Last(run).nodes.Keys
    ensures Taking(Last(longer), g, who + {a})
  {
    var sys := Last(run);
    hide IsRun, Next, Enabled, Ready, AtStart;
    TakeOne(cfg, sys, g, a);
    longer := Extend(cfg, run, ReceiveProposal(a, OfferOf(g)));
    ActsAlone(cfg, sys, ReceiveProposal(a, OfferOf(g)));
    TakeStep(sys, Last(longer), g, who, a);
  }

  lemma {:induction false} TakeAll(cfg: Config, run: seq<System>, g: Goal, who: set<Address>)
    returns (longer: seq<System>)
    requires IsRun(cfg, run) && g.proposer in who && who <= Last(run).nodes.Keys
    requires cfg.proposer(g.height, g.round) == g.proposer && AllAtStart(Last(run), g)
    ensures IsRun(cfg, longer) && run <= longer && Last(longer).nodes.Keys == Last(run).nodes.Keys
    ensures Taking(Last(longer), g, who)
    decreases |who|
  {
    hide IsRun, Taking, AllAtStart;
    if who == {g.proposer} {
      longer := TakeFirst(cfg, run, g);
    } else {
      var a :| a in who && a != g.proposer;
      var shorter := TakeAll(cfg, run, g, who - {a});
      longer := TakeMore(cfg, shorter, g, who - {a}, a);
      assert who - {a} + {a} == who;
    }
  }

  /* ---------- all nodes: timeouts ---------- */

  /** The node is at the goal's height in an earlier round. */
  ghost predicate Earlier(sys: System, g: Goal, a: Address) {
    && a in sys.nodes && sys.nodes[a].engine.address == a && !Done(sys, g, a)
    && sys.nodes[a].engine.height == g.height && sys.nodes[a].engine.round < g.round
  }

  lemma TimeoutOne(cfg: Config, sys: System, g: Goal, a: Address)
    requires Earlier(sys, g, a)
    ensures Enabled(sys, Timeout(a)) && a in Next(cfg, sys, Timeout(a)).nodes
    ensures
      var next := Next(cfg, sys, Timeout(a));
      && next.nodes[a].engine.round == sys.nodes[a].engine.round + 1
      && if next.nodes[a].engine.round == g.round then AtStart(next, g, a) else Earlier(next, g, a)
  {
  }

  lemma {:induction false} TimeoutTo(cfg: Config, run: seq<System>, g: Goal, a: Address) returns (longer: seq<System>)
    requires IsRun(cfg, run) && Earlier(Last(run), g, a)
    ensures IsRun(cfg, longer) && run <= longer && Acts(Last(run), Last(longer), a) && AtStart(Last(longer), g, a)
    decreases g.round - Last(run).nodes[a].engine.round
  {
    var sys := Last(run);
    TimeoutOne(cfg, sys, g, a);
    hide IsRun, Next, Enabled, AtStart;
    longer := Extend(cfg, run, Timeout(a));
    ActsAlone(cfg, sys, Timeout(a));
    if Last(longer).nodes[a].engine.round != g.round {
      var mid := longer;
      longer := TimeoutTo(cfg, mid, g, a);
      ActsTogether(sys, Last(mid), Last(longer), a);
    }
  }

  /** Validators of the set wait at the start of the goal's round, the others are behind. */
  ghost predicate Gathering(sys: System, g: Goal, who: set<Address>) {
    forall a <- sys.nodes.Keys :: if a in who then AtStart(sys, g, a) else Earlier(sys, g, a)
  }

  lemma GatherStep(sys: System, next: System, g: Goal, who: set<Address>, a: Address)
    requires Gathering(sys, g, who) && Acts(sys, next, a) && AtStart(next, g, a)
    ensures Gathering(next, g, who + {a})
  {
  }

  lemma {:induction false} GatherAll(cfg: Config, run: seq<System>, g: Goal, who: set<Address>)
    returns (longer: seq<System>)
    requires IsRun(cfg, run) && who <= Last(run).nodes.Keys && Gathering(Last(run), g, {})
    ensures IsRun(cfg, longer) && run <= longer && Last(longer).nodes.Keys == Last(run).nodes.Keys
    ensures Gathering(Last(longer), g, who)
    decreases |who|
  {
    assert run != [];
    hide IsRun, AtStart, Earlier;
    if who == {} {
      return run;
    }
    var a :| a in who;
    var shorter := GatherAll(cfg, run, g, who - {a});
    longer := TimeoutTo(cfg, shorter, g, a);
    GatherStep(Last(shorter), Last(longer), g, who - {a}, a);
    assert who - {a} + {a} == who;
  }

  /* ---------- the theorem ---------- */

  ghost predicate AllEarlier(sys: System, g: Goal) {
    forall a <- sys.nodes.Keys :: sys.nodes[a].engine.height == g.height && sys.nodes[a].engine.round < g.round
  }

  /** Honest validators are validators, and none has committed at a height it has not passed. */
  lemma StartingPoint(cfg: Config, run: seq<System>, g: Goal)
    requires Fits(cfg.powers) && IsRun(cfg, run) && AllEarlier(Last(run), g)
    ensures Last(run).nodes.Keys <= cfg.powers.Keys && Gathering(Last(run), g, {})
  {
    var sys := Last(run);
    RunKeepsInv(cfg, run, |run| - 1);
    HeightChain.InvNames(cfg, sys);
    HeightChain.RunKeepsBehind(cfg, run, |run| - 1);
    hide Inv;
    forall a <- sys.nodes.Keys ensures Earlier(sys, g, a) {
      assert sys.nodes[a].engine.address == a;
    }
  }

  /**
   From every reachable state in which all honest validators are at the goal's height, in earlier rounds, and have more
   than two thirds of the power: if the goal's round has an honest proposer, some continuation of the run brings every
   one of them to commit the proposer's block in that round.
   */
  lemma CanCommit(cfg: Config, run: seq<System>, g: Goal) returns (longer: seq<System>)
    requires Fits(cfg.powers) && IsRun(cfg, run) && IsQuorum(cfg.powers, Last(run).nodes.Keys) && g.block != 0
    requires g.proposer in Last(run).nodes && cfg.proposer(g.height, g.round) == g.proposer
    requires AllEarlier(Last(run), g)
    ensures IsRun(cfg, longer) && run <= longer && Last(longer).nodes.Keys == Last(run).nodes.Keys
    ensures forall a <- Last(run).nodes.Keys :: Done(Last(longer), g, a)
  {
    var all := Last(run).nodes.Keys;
    hide IsRun, Fits, AtStart, Earlier, Ready, OnPath, Done;
    StartingPoint(cfg, run, g);
    var gathered := GatherAll(cfg, run, g, all);
    var taken := TakeAll(cfg, gathered, g, all);
    var cast := CastAll(cfg, taken, g, all);
    longer := VotesDecide(cfg, cast, g);
  }
}
