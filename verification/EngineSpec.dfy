/**
 What one validator's Dew-BFT engine does at each step it takes while holding its lock.

 StartRound and the move to Prevote release the lock in the middle, to build a block and to validate
 one. Each is therefore two steps here: the first ends where the lock is released and leaves a
 `Build` or a `Validation` behind, the second starts from it and may find that the engine has moved.
 */
module EngineSpec {
  import opened Options
  import opened Validators
  import opened Quorums

  /** Zero is the nil hash. */
  type Hash = nat

  datatype Step = NewRound | Propose | Prevote | Precommit

  datatype VoteType = PrevoteType | PrecommitType

  datatype Vote = Vote(kind: VoteType, height: nat, round: nat, hash: Hash, validator: Address)

  /** `hasBody` is false for a proposal that carries only the hash. */
  datatype Proposal = Proposal(height: nat, round: nat, hash: Hash, hasBody: bool, proposer: Address)

  datatype CommitEvent = CommitEvent(height: nat, round: nat, hash: Hash)

  type Ballots = map<Address, Hash>

  /** The validator set is fixed; `proposer` is its schedule. */
  datatype Config = Config(powers: Powers, proposer: (nat, nat) -> Address)

  datatype Engine = Engine(
    address: Address,
    height: nat,
    round: nat,
    step: Step,
    parent: Hash,
    proposal: Option<Proposal>,
    prevotes: Ballots,
    precommits: Ballots,
    lockedRound: int,
    lockedHash: Hash,
    committed: bool)

  /** A proposal being built while the lock is free. */
  datatype Build = Build(height: nat, round: nat)

  /** A proposal being validated while the lock is free, with the lock state captured before. */
  datatype Validation = Validation(
    height: nat, round: nat, parent: Hash, proposal: Option<Proposal>, lockedRound: int, lockedHash: Hash)

  /** What a step sends: at most one message of each kind, in this order. */
  datatype Outbox = Outbox(proposal: Option<Proposal>, prevote: Option<Vote>, precommit: Option<Vote>,
                           commit: Option<CommitEvent>)

  const Silent := Outbox(None, None, None, None)

  /* ---------- votes ---------- */

  ghost function Voters(ballots: Ballots, h: Hash): set<Address> {
    set a | a in ballots && ballots[a] == h
  }

  ghost predicate Quorate(cfg: Config, ballots: Ballots, h: Hash) {
    Power(cfg.powers, Voters(ballots, h)) >= 0
    && Total(cfg.powers) >= 0
    && HasQuorum(Power(cfg.powers, Voters(ballots, h)), Total(cfg.powers))
  }

  /** The hash with a quorum. OneMajority shows that the choice is no choice. */
  ghost function Majority(cfg: Config, ballots: Ballots): Option<Hash> {
    if exists h :: Quorate(cfg, ballots, h) then
      var h :| Quorate(cfg, ballots, h);
      Some(h)
    else None
  }

  /** At most one hash has a quorum, so the result does not depend on the order of map iteration. */
  lemma OneMajority(cfg: Config, ballots: Ballots, h: Hash)
    requires Fits(cfg.powers)
    requires Quorate(cfg, ballots, h)
    ensures Majority(cfg, ballots) == Some(h)
  {
    var g :| Majority(cfg, ballots) == Some(g) && Quorate(cfg, ballots, g);
    TestIsQuorum(cfg.powers, Voters(ballots, g));
    TestIsQuorum(cfg.powers, Voters(ballots, h));
    assert Part(cfg.powers, {}) == map[];
    var a := QuorumsMeet(cfg.powers, Voters(ballots, g), Voters(ballots, h), {});
  }

  /** One ballot per validator: a second vote from the same validator is ignored. */
  function AddBallot(ballots: Ballots, a: Address, h: Hash): Ballots {
    if a in ballots then ballots else ballots[a := h]
  }

  /* ---------- transitions ---------- */

  function ResetVotes(e: Engine): Engine {
    e.(prevotes := map[], precommits := map[], proposal := None, committed := false)
  }

  function Unlocked(e: Engine): Engine {
    e.(lockedRound := -1, lockedHash := 0)
  }

  function EnterNextRound(e: Engine): Engine {
    ResetVotes(Unlocked(e).(round := e.round + 1)).(step := NewRound)
  }

  function EnterCommit(e: Engine, h: Hash): (Engine, Option<CommitEvent>) {
    if e.committed || e.proposal.None? || e.proposal.value.hash != h then (e, None) else
    (ResetVotes(Unlocked(e).(height := e.height + 1,
                             round := 0,
                             parent := if e.proposal.value.hasBody then h else e.parent)).(step := NewRound),
     Some(CommitEvent(e.height, e.round, h)))
  }

  ghost function TryAfterPrecommit(cfg: Config, e: Engine): (Engine, Option<CommitEvent>) {
    if e.step != Precommit then (e, None) else
    match Majority(cfg, e.precommits)
    case None => (e, None)
    case Some(h) => if h == 0 then (EnterNextRound(e), None) else EnterCommit(e, h)
  }

  /** Locks on a non-nil polka and casts the precommit. */
  function CastPrecommit(e: Engine, polka: Hash): Engine {
    var locked := if polka != 0 then e.(lockedRound := e.round, lockedHash := polka) else e;
    locked.(step := Precommit, precommits := AddBallot(e.precommits, e.address, polka))
  }

  function PrecommitOf(e: Engine, polka: Hash): Vote {
    Vote(PrecommitType, e.height, e.round, polka, e.address)
  }

  ghost function TryAfterPrevote(cfg: Config, e: Engine): (Engine, Outbox) {
    if e.step != Prevote || Majority(cfg, e.prevotes).None? then (e, Silent) else
    var polka := Majority(cfg, e.prevotes).value;
    var (e', commit) := TryAfterPrecommit(cfg, CastPrecommit(e, polka));
    (e', Outbox(None, None, Some(PrecommitOf(e, polka)), commit))
  }

  function BeginPrevote(e: Engine): (Engine, Validation) {
    (e.(step := Prevote),
     Validation(e.height, e.round, e.parent, e.proposal, e.lockedRound, e.lockedHash))
  }

  /** The hash to prevote, given the verdict of the proposal validator. */
  function PrevoteHash(v: Validation, valid: bool): Hash {
    if v.lockedRound >= 0 && v.lockedHash != 0 then v.lockedHash
    else if v.proposal.Some? && v.proposal.value.hasBody && valid then v.proposal.value.hash
    else 0
  }

  function PrevoteOf(e: Engine, v: Validation, valid: bool): Vote {
    Vote(PrevoteType, v.height, v.round, PrevoteHash(v, valid), e.address)
  }

  predicate Current(e: Engine, height: nat, round: nat, step: Step) {
    e.height == height && e.round == round && e.step == step
  }

  /** The lock is held again: the vote counts only if the engine has not moved on. */
  ghost function EndPrevote(cfg: Config, e: Engine, v: Validation, valid: bool): (Engine, Outbox) {
    if !Current(e, v.height, v.round, Prevote) then (e, Silent) else
    var vote := PrevoteOf(e, v, valid);
    var (e', box) := TryAfterPrevote(cfg, e.(prevotes := AddBallot(e.prevotes, e.address, vote.hash)));
    (e', box.(prevote := Some(vote)))
  }

  /** Enters Propose; the proposer goes on to build a block. */
  function BeginStartRound(cfg: Config, e: Engine): (Engine, Option<Build>) {
    if e.step != NewRound then (e, None) else
    (ResetVotes(e).(step := Propose),
     if cfg.proposer(e.height, e.round) == e.address then Some(Build(e.height, e.round)) else None)
  }

  /** The block is built, or building failed. */
  function EndStartRound(e: Engine, b: Build, block: Option<Hash>): (Engine, Option<Validation>, Outbox) {
    if block.None? || !Current(e, b.height, b.round, Propose) then (e, None, Silent) else
    var p := Proposal(b.height, b.round, block.value, true, e.address);
    var (e', v) := BeginPrevote(e.(proposal := Some(p)));
    (e', Some(v), Silent.(proposal := Some(p)))
  }

  function HandleProposal(cfg: Config, e: Engine, p: Proposal): (Engine, Option<Validation>) {
    if p.height != e.height || p.round != e.round || e.proposal.Some? || p.proposer != cfg.proposer(e.height, e.round)
    then (e, None) else
    var e1 := e.(proposal := Some(p));
    if e.step == Propose || e.step == NewRound then
      var (e', v) := BeginPrevote(e1);
      (e', Some(v))
    else (e1, None)
  }

  ghost function HandleVote(cfg: Config, e: Engine, v: Vote): (Engine, Outbox) {
    if v.height != e.height || v.round != e.round || v.validator !in cfg.powers then (e, Silent) else
    match v.kind
    case PrevoteType =>
      if v.validator in e.prevotes then (e, Silent)
      else TryAfterPrevote(cfg, e.(prevotes := AddBallot(e.prevotes, v.validator, v.hash)))
    case PrecommitType =>
      if v.validator in e.precommits then (e, Silent) else
      var (e', commit) := TryAfterPrecommit(cfg, e.(precommits := AddBallot(e.precommits, v.validator, v.hash)));
      (e', Silent.(commit := commit))
  }

  /** A block imported by catch-up moves the engine past its height. */
  function ApplySyncedBlock(e: Engine, number: nat, parent: Hash, hash: Hash): Engine {
    if e.height != number || parent != e.parent then e else
    ResetVotes(Unlocked(e).(height := number + 1, round := 0, parent := hash)).(step := NewRound)
  }

  /* ---------- what every step keeps ---------- */

  function Rank(s: Step): nat {
    match s
    case NewRound => 0
    case Propose => 1
    case Prevote => 2
    case Precommit => 3
  }

  /** Strictly later in (height, round, step). */
  predicate Before(e: Engine, f: Engine) {
    || e.height < f.height
    || (e.height == f.height && e.round < f.round)
    || (e.height == f.height && e.round == f.round && Rank(e.step) < Rank(f.step))
  }

  predicate SamePosition(e: Engine, f: Engine) {
    e.height == f.height && e.round == f.round && e.step == f.step
  }

  predicate NotAfter(e: Engine, f: Engine) {
    SamePosition(e, f) || Before(e, f)
  }

  /** The lock is held only between a precommit and the end of its round. */
  predicate LockDiscipline(e: Engine) {
    e.step != Precommit ==> e.lockedRound == -1 && e.lockedHash == 0
  }

  /** No step takes an engine back, and a precommit is cast only on leaving Prevote. */
  lemma StepsAdvance(cfg: Config, e: Engine)
    ensures NotAfter(e, TryAfterPrecommit(cfg, e).0)
    ensures NotAfter(e, TryAfterPrevote(cfg, e).0)
    ensures TryAfterPrevote(cfg, e).1.precommit.Some? ==> e.step == Prevote && Before(e, TryAfterPrevote(cfg, e).0)
    ensures TryAfterPrecommit(cfg, e).1.Some? ==> Before(e, TryAfterPrecommit(cfg, e).0)
  {
  }

  lemma VotesAdvance(cfg: Config, e: Engine, v: Vote)
    ensures NotAfter(e, HandleVote(cfg, e, v).0)
  {
    StepsAdvance(cfg, e.(prevotes := AddBallot(e.prevotes, v.validator, v.hash)));
    StepsAdvance(cfg, e.(precommits := AddBallot(e.precommits, v.validator, v.hash)));
  }

  lemma ValidationAdvances(cfg: Config, e: Engine, v: Validation, valid: bool)
    ensures NotAfter(e, EndPrevote(cfg, e, v, valid).0)
  {
    StepsAdvance(cfg, e.(prevotes := AddBallot(e.prevotes, e.address, PrevoteHash(v, valid))));
  }

  /* ---------- how far a vote takes an engine ---------- */

  /** The start of a height or round: nothing proposed, counted, locked or committed. */
  function Waiting(a: Address, height: nat, round: nat, parent: Hash): Engine {
    Engine(a, height, round, NewRound, parent, None, map[], map[], -1, 0, false)
  }

  /** From the state a vote leaves, a commit of the proposed block, a next round, or no move. */
  ghost predicate MovesBy(e: Engine, e': Engine, commit: Option<CommitEvent>) {
    match commit
    case None => e'.height == e.height && e'.parent == e.parent
      && (e'.round == e.round || e' == Waiting(e.address, e.height, e.round + 1, e.parent))
    case Some(ev) =>
      && e.proposal.Some? && ev == CommitEvent(e.height, e.round, e.proposal.value.hash)
      && e' == Waiting(e.address, e.height + 1, 0, if e.proposal.value.hasBody then ev.hash else e.parent)
  }

  lemma PrecommitsMove(cfg: Config, e: Engine)
    ensures MovesBy(e, TryAfterPrecommit(cfg, e).0, TryAfterPrecommit(cfg, e).1)
  {
  }

  lemma PrevotesMove(cfg: Config, e: Engine)
    ensures MovesBy(e, TryAfterPrevote(cfg, e).0, TryAfterPrevote(cfg, e).1.commit)
  {
    if e.step == Prevote && Majority(cfg, e.prevotes).Some? {
      PrecommitsMove(cfg, CastPrecommit(e, Majority(cfg, e.prevotes).value));
    }
  }

  /** With precommits counted, a block is committed exactly when it is the proposed one and has a quorum. */
  lemma CommitsExactly(cfg: Config, e: Engine)
    requires Fits(cfg.powers) && e.step == Precommit
    ensures TryAfterPrecommit(cfg, e).1.Some? <==>
      && !e.committed && e.proposal.Some? && e.proposal.value.hash != 0
      && IsQuorum(cfg.powers, Voters(e.precommits, e.proposal.value.hash))
  {
    if e.proposal.Some? {
      var h := e.proposal.value.hash;
      TestIsQuorum(cfg.powers, Voters(e.precommits, h));
      if Quorate(cfg, e.precommits, h) {
        OneMajority(cfg, e.precommits, h);
      }
    }
  }

  /** With prevotes counted, a precommit is cast exactly when some hash has a quorum, and for that hash. */
  lemma PrecommitsExactly(cfg: Config, e: Engine, h: Hash)
    requires Fits(cfg.powers) && e.step == Prevote
    ensures TryAfterPrevote(cfg, e).1.precommit == Some(Vote(PrecommitType, e.height, e.round, h, e.address)) <==>
      IsQuorum(cfg.powers, Voters(e.prevotes, h))
  {
    TestIsQuorum(cfg.powers, Voters(e.prevotes, h));
    if Quorate(cfg, e.prevotes, h) {
      OneMajority(cfg, e.prevotes, h);
    }
  }

  /** A captured lock decides the prevote; otherwise it is the proposed block if accepted, and nil if not. */
  lemma PrevoteChoice(e: Engine, w: Validation, valid: bool)
    ensures
      var v := PrevoteOf(e, w, valid);
      && v == Vote(PrevoteType, w.height, w.round, v.hash, e.address)
      && (w.lockedRound >= 0 && w.lockedHash != 0 ==> v.hash == w.lockedHash)
      && (w.lockedRound == -1 && valid && w.proposal.Some? && w.proposal.value.hasBody ==>
            v.hash == w.proposal.value.hash)
      && (w.lockedRound == -1 && (!valid || w.proposal.None? || !w.proposal.value.hasBody) ==> v.hash == 0)
  {
  }
}
