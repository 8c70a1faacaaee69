/**
 What happens within a round, in every run: who proposes, that a proposal is not exchanged for another, and that no
 engine sits on a nil majority.
 */
module RoundRules {
  import opened Options
  import opened Validators
  import opened EngineSpec
  import opened Protocol

  /* ---------- the rules ---------- */

  /** The proposal is of the given round and comes from its scheduled proposer, who sent it if honest. */
  ghost predicate Scheduled(cfg: Config, honest: set<Address>, sent: set<Proposal>, p: Proposal, height: nat,
                            round: nat) {
    && p.height == height && p.round == round && p.proposer == cfg.proposer(height, round)
    && (p.proposer in honest ==> p in sent)
  }

  ghost predicate EngineRules(cfg: Config, honest: set<Address>, sent: set<Proposal>, e: Engine) {
    && (e.proposal.Some? ==> Scheduled(cfg, honest, sent, e.proposal.value, e.height, e.round))
    && (e.step == NewRound || e.step == Propose ==> e.proposal.None?)
    && (e.step == Precommit ==> Majority(cfg, e.precommits) != Some(0) && e.address in e.precommits)
  }

  /** A validator builds only in its own rounds, and sends its proposal on entering Prevote. */
  ghost predicate ProposerRules(cfg: Config, sent: set<Proposal>, a: Address, n: Node) {
    && n.engine.address == a
    && (forall b <- n.building :: cfg.proposer(b.height, b.round) == a)
    && (forall p <- sent :: p.proposer == a ==>
          Reached(n.engine, p.height, p.round, Rank(Prevote)) && cfg.proposer(p.height, p.round) == a)
  }

  ghost predicate OneEach(sent: set<Proposal>) {
    forall p <- sent, q <- sent :: p.proposer == q.proposer && p.height == q.height && p.round == q.round ==> p == q
  }

  ghost predicate NodeRules(cfg: Config, honest: set<Address>, sent: set<Proposal>, a: Address, n: Node) {
    EngineRules(cfg, honest, sent, n.engine) && ProposerRules(cfg, sent, a, n)
  }

  ghost predicate Rules(cfg: Config, sys: System) {
    && (forall a <- sys.nodes.Keys :: NodeRules(cfg, sys.nodes.Keys, sys.proposals, a, sys.nodes[a]))
    && OneEach(sys.proposals)
    && (forall p <- sys.proposals :: p.proposer in sys.nodes)
  }

  /* ---------- one engine ---------- */

  lemma PrecommitsKeepRules(cfg: Config, honest: set<Address>, sent: set<Proposal>, e: Engine)
    requires e.proposal.Some? ==> Scheduled(cfg, honest, sent, e.proposal.value, e.height, e.round)
    requires e.step == NewRound || e.step == Propose ==> e.proposal.None?
    requires e.step == Precommit ==> e.address in e.precommits
    ensures EngineRules(cfg, honest, sent, TryAfterPrecommit(cfg, e).0)
  {
  }

  lemma PrevotesKeepRules(cfg: Config, honest: set<Address>, sent: set<Proposal>, e: Engine)
    requires EngineRules(cfg, honest, sent, e)
    ensures EngineRules(cfg, honest, sent, TryAfterPrevote(cfg, e).0)
  {
    if e.step == Prevote && Majority(cfg, e.prevotes).Some? {
      PrecommitsKeepRules(cfg, honest, sent, CastPrecommit(e, Majority(cfg, e.prevotes).value));
    }
  }

  lemma VotesKeepRules(cfg: Config, honest: set<Address>, sent: set<Proposal>, e: Engine, v: Vote)
    requires EngineRules(cfg, honest, sent, e)
    ensures EngineRules(cfg, honest, sent, HandleVote(cfg, e, v).0)
  {
    PrevotesKeepRules(cfg, honest, sent, e.(prevotes := AddBallot(e.prevotes, v.validator, v.hash)));
    PrecommitsKeepRules(cfg, honest, sent, e.(precommits := AddBallot(e.precommits, v.validator, v.hash)));
    hide TryAfterPrevote, TryAfterPrecommit, Majority;
  }

  lemma ValidationKeepsRules(cfg: Config, honest: set<Address>, sent: set<Proposal>, e: Engine, w: Validation,
                             valid: bool)
    requires EngineRules(cfg, honest, sent, e)
    ensures EngineRules(cfg, honest, sent, EndPrevote(cfg, e, w, valid).0)
  {
    PrevotesKeepRules(cfg, honest, sent, e.(prevotes := AddBallot(e.prevotes, e.address, PrevoteHash(w, valid))));
    hide TryAfterPrevote, Majority;
  }

  predicate SameRound(e: Engine, e': Engine) {
    e'.height == e.height && e'.round == e.round
  }

  /** Within a round a proposal stays once it is there, and so does a vote, from the start of the round on. */
  ghost predicate KeepsRound(e: Engine, e': Engine) {
    && (e.proposal.Some? && SameRound(e, e') && e'.step != NewRound ==> e'.proposal == e.proposal)
    && (e.step != NewRound && SameRound(e, e') ==>
          Kept(e.prevotes, e'.prevotes) && Kept(e.precommits, e'.precommits))
  }

  ghost predicate Kept(ballots: Ballots, more: Ballots) {
    forall a <- ballots.Keys :: a in more && more[a] == ballots[a]
  }

  lemma VotesKeepRound(cfg: Config, e: Engine)
    ensures KeepsRound(e, TryAfterPrecommit(cfg, e).0) && KeepsRound(e, TryAfterPrevote(cfg, e).0)
  {
  }

  /* ---------- one step of a system ---------- */

  /** The engine and the building of the acting node, and what it has proposed, after a step. */
  ghost predicate ActsByRules(cfg: Config, sys: System, next: System, a: Address)
    requires a in sys.nodes && a in next.nodes
  {
    var (n, n') := (sys.nodes[a], next.nodes[a]);
    && EngineRules(cfg, sys.nodes.Keys, next.proposals, n'.engine)
    && NotAfter(n.engine, n'.engine) && n'.engine.address == a
    && (forall b <- n'.building :: cfg.proposer(b.height, b.round) == a)
    && KeepsRound(n.engine, n'.engine)
    && sys.proposals <= next.proposals
    && (forall p <- next.proposals :: p !in sys.proposals ==> Proposes(cfg, n.engine, n'.engine, p))
    && (forall p <- next.proposals, q <- next.proposals :: p !in sys.proposals && q !in sys.proposals ==> p == q)
  }

  /** A proposal is made on the way from Propose to Prevote, by the scheduled proposer. */
  ghost predicate Proposes(cfg: Config, e: Engine, e': Engine, p: Proposal) {
    && p.proposer == e.address && cfg.proposer(p.height, p.round) == e.address
    && Current(e, p.height, p.round, Propose) && Current(e', p.height, p.round, Prevote)
  }

  lemma SentGrows(cfg: Config, honest: set<Address>, sent: set<Proposal>, more: set<Proposal>, e: Engine)
    requires EngineRules(cfg, honest, sent, e) && sent <= more
    ensures EngineRules(cfg, honest, more, e)
  {
  }

  lemma HandleVoteKeepsRound(cfg: Config, e: Engine, v: Vote)
    ensures KeepsRound(e, HandleVote(cfg, e, v).0)
  {
    VotesKeepRound(cfg, e.(prevotes := AddBallot(e.prevotes, v.validator, v.hash)));
    VotesKeepRound(cfg, e.(precommits := AddBallot(e.precommits, v.validator, v.hash)));
    hide TryAfterPrevote, TryAfterPrecommit;
  }

  lemma EndPrevoteKeepsRound(cfg: Config, e: Engine, w: Validation, valid: bool)
    ensures KeepsRound(e, EndPrevote(cfg, e, w, valid).0)
  {
    VotesKeepRound(cfg, e.(prevotes := AddBallot(e.prevotes, e.address, PrevoteHash(w, valid))));
    hide TryAfterPrevote;
  }

  lemma QuietByRules(cfg: Config, sys: System, next: System, a: Address, e': Engine)
    requires Rules(cfg, sys) && a in sys.nodes && Quiet(sys, next, a, e')
    requires EngineRules(cfg, sys.nodes.Keys, sys.proposals, e')
    requires NotAfter(sys.nodes[a].engine, e') && KeepsRound(sys.nodes[a].engine, e')
    ensures ActsByRules(cfg, sys, next, a)
  {
    assert NodeRules(cfg, sys.nodes.Keys, sys.proposals, a, sys.nodes[a]);
    hide Rules, EngineRules, KeepsRound, NotAfter;
  }

  lemma VoteByRules(cfg: Config, sys: System, act: Action)
    requires Rules(cfg, sys) && Enabled(sys, act) && (act.ReceiveVote? || act.Validated?)
    ensures act.at in Next(cfg, sys, act).nodes && ActsByRules(cfg, sys, Next(cfg, sys, act), act.at)
  {
    var e := sys.nodes[act.at].engine;
    assert NodeRules(cfg, sys.nodes.Keys, sys.proposals, act.at, sys.nodes[act.at]);
    hide Next, Rules, EngineRules, KeepsRound, NotAfter, HandleVote, EndPrevote, Enabled;
    PositionsAdvance(cfg, sys, act, act.at);
    if act.ReceiveVote? {
      VotesKeepRules(cfg, sys.nodes.Keys, sys.proposals, e, act.vote);
      HandleVoteKeepsRound(cfg, e, act.vote);
      ReceivedQuiet(cfg, sys, act);
      QuietByRules(cfg, sys, Next(cfg, sys, act), act.at, HandleVote(cfg, e, act.vote).0);
    } else {
      ValidationKeepsRules(cfg, sys.nodes.Keys, sys.proposals, e, act.validation, act.valid);
      EndPrevoteKeepsRound(cfg, e, act.validation, act.valid);
      ValidatedQuiet(cfg, sys, act);
      QuietByRules(cfg, sys, Next(cfg, sys, act), act.at, EndPrevote(cfg, e, act.validation, act.valid).0);
    }
  }

  /** Votes propose nothing, build nothing and keep the address. */
  ghost predicate Quiet(sys: System, next: System, a: Address, e': Engine)
    requires a in sys.nodes
  {
    && a in next.nodes && next.nodes[a].engine == e' && e'.address == sys.nodes[a].engine.address
    && next.proposals == sys.proposals && next.nodes[a].building == sys.nodes[a].building
  }

  lemma SameAddress(cfg: Config, e: Engine)
    ensures TryAfterPrecommit(cfg, e).0.address == e.address && TryAfterPrevote(cfg, e).0.address == e.address
    ensures TryAfterPrevote(cfg, e).1.proposal == None
  {
  }

  lemma ReceivedQuiet(cfg: Config, sys: System, act: Action)
    requires Enabled(sys, act) && act.ReceiveVote?
    ensures Quiet(sys, Next(cfg, sys, act), act.at, HandleVote(cfg, sys.nodes[act.at].engine, act.vote).0)
  {
    var e, v := sys.nodes[act.at].engine, act.vote;
    SameAddress(cfg, e.(prevotes := AddBallot(e.prevotes, v.validator, v.hash)));
    SameAddress(cfg, e.(precommits := AddBallot(e.precommits, v.validator, v.hash)));
    hide TryAfterPrevote, TryAfterPrecommit;
  }

  lemma ValidatedQuiet(cfg: Config, sys: System, act: Action)
    requires Enabled(sys, act) && act.Validated?
    ensures Quiet(sys, Next(cfg, sys, act), act.at,
                  EndPrevote(cfg, sys.nodes[act.at].engine, act.validation, act.valid).0)
  {
    var e := sys.nodes[act.at].engine;
    SameAddress(cfg, e.(prevotes := AddBallot(e.prevotes, e.address, PrevoteHash(act.validation, act.valid))));
    hide TryAfterPrevote;
  }

  lemma MoveByRules(cfg: Config, sys: System, act: Action)
    requires Rules(cfg, sys) && Enabled(sys, act) && (act.StartRound? || act.Timeout? || act.Synced?)
    ensures act.at in Next(cfg, sys, act).nodes && ActsByRules(cfg, sys, Next(cfg, sys, act), act.at)
  {
    assert NodeRules(cfg, sys.nodes.Keys, sys.proposals, act.at, sys.nodes[act.at]);
    PositionsAdvance(cfg, sys, act, act.at);
    hide Rules, Majority;
  }

  lemma ProposalByRules(cfg: Config, sys: System, act: Action)
    requires Rules(cfg, sys) && Enabled(sys, act) && (act.BlockBuilt? || act.ReceiveProposal?)
    ensures act.at in Next(cfg, sys, act).nodes && ActsByRules(cfg, sys, Next(cfg, sys, act), act.at)
  {
    assert NodeRules(cfg, sys.nodes.Keys, sys.proposals, act.at, sys.nodes[act.at]);
    PositionsAdvance(cfg, sys, act, act.at);
    hide Rules, Majority;
  }

  lemma NodeByRules(cfg: Config, sys: System, act: Action)
    requires Rules(cfg, sys) && Enabled(sys, act)
    ensures act.at in Next(cfg, sys, act).nodes && ActsByRules(cfg, sys, Next(cfg, sys, act), act.at)
  {
    NextKeepsNodes(cfg, sys, act);
    hide Next, Rules, ActsByRules;
    match act
    case ReceiveVote(_, _) => VoteByRules(cfg, sys, act);
    case Validated(_, _, _) => VoteByRules(cfg, sys, act);
    case BlockBuilt(_, _, _) => ProposalByRules(cfg, sys, act);
    case ReceiveProposal(_, _) => ProposalByRules(cfg, sys, act);
    case _ => MoveByRules(cfg, sys, act);
  }

  lemma ReachedStays(e: Engine, e': Engine, height: nat, round: nat, rank: nat)
    requires Reached(e, height, round, rank) && NotAfter(e, e')
    ensures Reached(e', height, round, rank)
  {
  }

  lemma ActorKeepsRules(cfg: Config, sys: System, next: System, a: Address)
    requires Rules(cfg, sys) && a in sys.nodes && OnlyAt(sys, next, a) && ActsByRules(cfg, sys, next, a)
    ensures NodeRules(cfg, next.nodes.Keys, next.proposals, a, next.nodes[a])
  {
    var (e, e') := (sys.nodes[a].engine, next.nodes[a].engine);
    assert NodeRules(cfg, sys.nodes.Keys, sys.proposals, a, sys.nodes[a]);
    forall p <- next.proposals | p.proposer == a
      ensures Reached(e', p.height, p.round, Rank(Prevote)) && cfg.proposer(p.height, p.round) == a
    {
      if p in sys.proposals {
        ReachedStays(e, e', p.height, p.round, Rank(Prevote));
      } else {
        assert Proposes(cfg, e, e', p);
      }
    }
  }

  lemma OtherKeepsRules(cfg: Config, sys: System, next: System, a: Address, b: Address)
    requires Rules(cfg, sys) && a in sys.nodes && b in sys.nodes && a != b && OnlyAt(sys, next, a)
    requires ActsByRules(cfg, sys, next, a) && sys.nodes[a].engine.address == a
    ensures NodeRules(cfg, next.nodes.Keys, next.proposals, b, next.nodes[b])
  {
    assert NodeRules(cfg, sys.nodes.Keys, sys.proposals, b, sys.nodes[b]) && next.nodes[b] == sys.nodes[b];
    SentGrows(cfg, sys.nodes.Keys, sys.proposals, next.proposals, sys.nodes[b].engine);
    forall p <- next.proposals | p !in sys.proposals ensures p.proposer == a {
      assert Proposes(cfg, sys.nodes[a].engine, next.nodes[a].engine, p);
    }
    hide Rules, EngineRules, ActsByRules;
  }

  /** A validator that has proposed in a round is past Propose there, so it does not propose again. */
  lemma StillOneEach(cfg: Config, sys: System, next: System, a: Address)
    requires Rules(cfg, sys) && a in sys.nodes && a in next.nodes && ActsByRules(cfg, sys, next, a)
    requires sys.nodes[a].engine.address == a
    ensures OneEach(next.proposals) && forall p <- next.proposals :: p.proposer in sys.nodes
  {
    var e := sys.nodes[a].engine;
    assert NodeRules(cfg, sys.nodes.Keys, sys.proposals, a, sys.nodes[a]);
    forall p <- next.proposals, q <- next.proposals | p !in sys.proposals && q in sys.proposals && q.proposer == a
      ensures q.height != p.height || q.round != p.round
    {
      assert Proposes(cfg, e, next.nodes[a].engine, p);
      assert Reached(e, q.height, q.round, Rank(Prevote));
    }
    forall p <- next.proposals | p !in sys.proposals ensures p.proposer == a {
      assert Proposes(cfg, e, next.nodes[a].engine, p);
    }
    hide EngineRules, NodeRules;
  }

  lemma NextKeepsRules(cfg: Config, sys: System, act: Action)
    requires Rules(cfg, sys) && Enabled(sys, act)
    ensures Rules(cfg, Next(cfg, sys, act))
  {
    OthersStay(cfg, sys, act);
    NodeByRules(cfg, sys, act);
    assert NodeRules(cfg, sys.nodes.Keys, sys.proposals, act.at, sys.nodes[act.at]);
    assert sys.nodes[act.at].engine.address == act.at;
    RulesStep(cfg, sys, Next(cfg, sys, act), act.at);
    hide *;
  }

  lemma RulesStep(cfg: Config, sys: System, next: System, a: Address)
    requires Rules(cfg, sys) && a in sys.nodes && OnlyAt(sys, next, a) && ActsByRules(cfg, sys, next, a)
    requires sys.nodes[a].engine.address == a
    ensures Rules(cfg, next)
  {
    forall b <- next.nodes.Keys ensures NodeRules(cfg, next.nodes.Keys, next.proposals, b, next.nodes[b]) {
      if b == a {
        ActorKeepsRules(cfg, sys, next, a);
      } else {
        OtherKeepsRules(cfg, sys, next, a, b);
      }
    }
    StillOneEach(cfg, sys, next, a);
    hide NodeRules, ActsByRules, OneEach;
  }

  /* ---------- whole runs ---------- */

  lemma StartsByRules(cfg: Config, sys: System)
    requires Initial(cfg, sys)
    ensures Rules(cfg, sys)
  {
  }

  /** Every run keeps to the rules. */
  lemma {:induction false} RunKeepsRules(cfg: Config, run: seq<System>, i: nat)
    requires IsRun(cfg, run) && i < |run|
    ensures Rules(cfg, run[i])
  {
    if i == 0 {
      StartsByRules(cfg, run[0]);
    } else {
      hide *;
      var act := ActionOf(cfg, run, i);
      RunKeepsRules(cfg, run, i - 1);
      NextKeepsRules(cfg, run[i - 1], act);
    }
  }

  /**
   In every run, what an honest engine has for a proposal is of its own round, from the scheduled proposer; and two
   honest engines that hold proposals of one round from an honest proposer hold the same.
   */
  lemma ProposalsAgree(cfg: Config, run: seq<System>, a: Address, b: Address)
    requires IsRun(cfg, run) && a in Last(run).nodes && b in Last(run).nodes
    ensures
      var (e, f) := (Last(run).nodes[a].engine, Last(run).nodes[b].engine);
      && (e.proposal.Some? ==>
            Scheduled(cfg, Last(run).nodes.Keys, Last(run).proposals, e.proposal.value, e.height, e.round))
      && (e.proposal.Some? && f.proposal.Some? && e.height == f.height && e.round == f.round ==>
            cfg.proposer(e.height, e.round) in Last(run).nodes ==> e.proposal == f.proposal)
  {
    var sys := Last(run);
    RunKeepsRules(cfg, run, |run| - 1);
    assert NodeRules(cfg, sys.nodes.Keys, sys.proposals, a, sys.nodes[a]);
    assert NodeRules(cfg, sys.nodes.Keys, sys.proposals, b, sys.nodes[b]);
    hide IsRun;
  }

  /** No engine is ever left in Precommit with a nil majority, or without counting its own precommit. */
  lemma NilMajorityIsLeft(cfg: Config, run: seq<System>, a: Address)
    requires IsRun(cfg, run) && a in Last(run).nodes && Last(run).nodes[a].engine.step == Precommit
    ensures Majority(cfg, Last(run).nodes[a].engine.precommits) != Some(0) && a in Last(run).nodes[a].engine.precommits
  {
    var sys := Last(run);
    RunKeepsRules(cfg, run, |run| - 1);
    assert NodeRules(cfg, sys.nodes.Keys, sys.proposals, a, sys.nodes[a]);
  }

  /** Whatever else happens, an engine keeps the proposal it has taken and the votes it has counted in a round. */
  lemma RoundStays(cfg: Config, run: seq<System>, act: Action)
    requires IsRun(cfg, run) && Enabled(Last(run), act)
    ensures act.at in Next(cfg, Last(run), act).nodes
    ensures KeepsRound(Last(run).nodes[act.at].engine, Next(cfg, Last(run), act).nodes[act.at].engine)
  {
    RunKeepsRules(cfg, run, |run| - 1);
    hide IsRun, Next, Rules;
    NodeByRules(cfg, Last(run), act);
  }

  /** But votes that come before the engine has started its round are dropped when it starts. */
  lemma EarlyVotesAreDropped(cfg: Config, sys: System, a: Address)
    requires a in sys.nodes && sys.nodes[a].engine.step == NewRound
    ensures
      var next := Next(cfg, sys, StartRound(a));
      && a in next.nodes && SameRound(sys.nodes[a].engine, next.nodes[a].engine)
      && next.nodes[a].engine.prevotes == map[] && next.nodes[a].engine.precommits == map[]
  {
  }
}
