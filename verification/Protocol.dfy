/**
 Dew-BFT over whole runs: any number of honest engines, messages delivered in any order and any number
 of times, and faulty validators that may vote as they like.

 Signatures are unforgeable: a vote or proposal in the name of an honest validator is delivered only
 if that validator sent it.
 */
module Protocol {
  import opened Options
  import opened Validators
  import opened Quorums
  import opened EngineSpec

  /** An honest engine together with its calls that are running without the lock. */
  datatype Node = Node(engine: Engine, validating: set<Validation>, building: set<Build>)

  /** What a vote is about; VerifyDoubleSign compares votes of one slot. */
  datatype Slot = Slot(kind: VoteType, height: nat, round: nat, validator: Address)

  /** For each slot, every hash signed for it. */
  type Signatures = map<Slot, set<Hash>>

  datatype Acceptance = Acceptance(validator: Address, height: nat, round: nat, parent: Hash, hash: Hash)

  datatype Commitment = Commitment(validator: Address, event: CommitEvent)

  /**
   `signed` holds every vote an honest engine has signed, sent or not. `accepted` and `commits` record
   the verdicts of proposal validation and the commit events.
   */
  datatype System = System(
    nodes: map<Address, Node>,
    signed: Signatures,
    sent: set<Vote>,
    proposals: set<Proposal>,
    accepted: set<Acceptance>,
    commits: set<Commitment>)

  datatype Action =
    | StartRound(at: Address)
    | BlockBuilt(at: Address, build: Build, block: Option<Hash>)
    | ReceiveProposal(at: Address, proposal: Proposal)
    | Validated(at: Address, validation: Validation, valid: bool)
    | ReceiveVote(at: Address, vote: Vote)
    | Timeout(at: Address)
    | Synced(at: Address, number: nat, parent: Hash, hash: Hash)

  function SlotOf(v: Vote): Slot {
    Slot(v.kind, v.height, v.round, v.validator)
  }

  predicate HasSigned(signed: Signatures, v: Vote) {
    SlotOf(v) in signed && v.hash in signed[SlotOf(v)]
  }

  function Sign(signed: Signatures, v: Vote): Signatures {
    signed[SlotOf(v) := (if SlotOf(v) in signed then signed[SlotOf(v)] else {}) + {v.hash}]
  }

  function SignOptional(signed: Signatures, v: Option<Vote>): Signatures {
    if v.Some? then Sign(signed, v.value) else signed
  }

  function AsSet<T>(x: Option<T>): set<T> {
    if x.Some? then {x.value} else {}
  }

  ghost predicate Enabled(sys: System, act: Action) {
    && act.at in sys.nodes
    && match act
       case BlockBuilt(a, b, _) => b in sys.nodes[a].building
       case ReceiveProposal(_, p) => p.proposer in sys.nodes ==> p in sys.proposals
       case Validated(a, v, _) => v in sys.nodes[a].validating
       case ReceiveVote(_, v) => v.validator in sys.nodes ==> v in sys.sent
       case _ => true
  }

  /** Records what one step of the node at `a` signed and sent. */
  function Record(sys: System, a: Address, node: Node, prevote: Option<Vote>, box: Outbox): System {
    sys.(nodes := sys.nodes[a := node],
         signed := SignOptional(SignOptional(sys.signed, prevote), box.precommit),
         sent := sys.sent + AsSet(box.prevote) + AsSet(box.precommit),
         proposals := sys.proposals + AsSet(box.proposal),
         commits := if box.commit.Some? then sys.commits + {Commitment(a, box.commit.value)} else sys.commits)
  }

  /** The verdict of a validation, when it is favourable. */
  function Verdict(a: Address, v: Validation, valid: bool): Option<Acceptance> {
    if v.proposal.Some? && v.proposal.value.hasBody && valid
    then Some(Acceptance(a, v.height, v.round, v.parent, v.proposal.value.hash))
    else None
  }

  ghost function Next(cfg: Config, sys: System, act: Action): System
    requires Enabled(sys, act)
  {
    var a := act.at;
    var node := sys.nodes[a];
    var e := node.engine;
    match act
    case StartRound(_) =>
      var (e', b) := BeginStartRound(cfg, e);
      Record(sys, a, node.(engine := e', building := node.building + AsSet(b)), None, Silent)
    case BlockBuilt(_, b, block) =>
      var (e', v, box) := EndStartRound(e, b, block);
      Record(sys, a, Node(e', node.validating + AsSet(v), node.building - {b}), None, box)
    case ReceiveProposal(_, p) =>
      var (e', v) := HandleProposal(cfg, e, p);
      Record(sys, a, node.(engine := e', validating := node.validating + AsSet(v)), None, Silent)
    case Validated(_, v, valid) =>
      var (e', box) := EndPrevote(cfg, e, v, valid);
      Record(sys.(accepted := sys.accepted + AsSet(Verdict(a, v, valid))), a,
             node.(engine := e', validating := node.validating - {v}), Some(PrevoteOf(e, v, valid)), box)
    case ReceiveVote(_, v) =>
      var (e', box) := HandleVote(cfg, e, v);
      Record(sys, a, node.(engine := e'), None, box)
    case Timeout(_) =>
      Record(sys, a, node.(engine := EnterNextRound(e)), None, Silent)
    case Synced(_, number, parent, hash) =>
      Record(sys, a, node.(engine := ApplySyncedBlock(e, number, parent, hash)), None, Silent)
  }

  /** Fresh engines, each at the height its own chain has reached; nothing signed, sent or committed. */
  ghost predicate Initial(cfg: Config, sys: System) {
    && sys.nodes.Keys <= cfg.powers.Keys
    && sys == System(sys.nodes, map[], {}, {}, {}, {})
    && forall a <- sys.nodes.Keys ::
         var e := sys.nodes[a].engine;
         && sys.nodes[a] == Node(e, {}, {})
         && e == Engine(a, e.height, 0, NewRound, e.parent, None, map[], map[], -1, 0, false)
  }

  /** The honest validators are those with a node; the rest of the set may be faulty. */
  ghost predicate FaultBound(cfg: Config, sys: System) {
    && Fits(cfg.powers)
    && IsMinority(cfg.powers, cfg.powers.Keys - sys.nodes.Keys)
  }

  ghost predicate Follows(cfg: Config, sys: System, next: System) {
    exists act :: Enabled(sys, act) && next == Next(cfg, sys, act)
  }

  ghost predicate IsRun(cfg: Config, run: seq<System>) {
    && run != []
    && Initial(cfg, run[0])
    && forall i | 0 < i < |run| :: Follows(cfg, run[i - 1], run[i])
  }

  /* ---------- the invariant ---------- */

  /** The engine has reached the given step of the given round. */
  predicate Reached(e: Engine, height: nat, round: nat, rank: nat) {
    || height < e.height
    || (height == e.height && round < e.round)
    || (height == e.height && round == e.round && rank <= Rank(e.step))
  }

  function RankOf(kind: VoteType): nat {
    match kind
    case PrevoteType => Rank(Prevote)
    case PrecommitType => Rank(Precommit)
  }

  /** Ballots attributed to honest validators are votes they signed. */
  ghost predicate Genuine(honest: set<Address>, signed: Signatures, kind: VoteType, height: nat, round: nat,
                          ballots: Ballots) {
    forall b <- ballots.Keys :: b in honest ==> HasSigned(signed, Vote(kind, height, round, ballots[b], b))
  }

  ghost predicate NodeInv(honest: set<Address>, signed: Signatures, a: Address, n: Node) {
    var e := n.engine;
    && e.address == a
    && LockDiscipline(e)
    && Genuine(honest, signed, PrevoteType, e.height, e.round, e.prevotes)
    && Genuine(honest, signed, PrecommitType, e.height, e.round, e.precommits)
    && (forall s <- signed.Keys :: s.validator == a ==> Reached(e, s.height, s.round, RankOf(s.kind)))
    && (forall w <- n.validating ::
          && Reached(e, w.height, w.round, Rank(Prevote))
          && w.lockedRound == -1
          && Slot(PrevoteType, w.height, w.round, a) !in signed)
    && (forall w <- n.validating, x <- n.validating :: w.height == x.height && w.round == x.round ==> w == x)
  }

  /** A quorum whose honest members all signed this vote. */
  ghost predicate Backed(cfg: Config, honest: set<Address>, signed: Signatures, kind: VoteType, height: nat,
                         round: nat, h: Hash) {
    exists q: set<Address> :: IsQuorum(cfg.powers, q) && Behind(honest, signed, kind, height, round, h, q)
  }

  ghost predicate Behind(honest: set<Address>, signed: Signatures, kind: VoteType, height: nat, round: nat, h: Hash,
                         q: set<Address>) {
    forall a <- q :: a in honest ==> HasSigned(signed, Vote(kind, height, round, h, a))
  }

  ghost predicate Unequivocal(signed: Signatures) {
    forall s <- signed.Keys :: |signed[s]| == 1
  }

  /** A signed vote is an honest one, and a non-nil one has its reason. */
  ghost predicate Supported(cfg: Config, honest: set<Address>, signed: Signatures, accepted: set<Acceptance>, v: Vote) {
    && v.validator in honest
    && (v.hash != 0 ==>
         match v.kind
         case PrevoteType => exists parent :: Acceptance(v.validator, v.height, v.round, parent, v.hash) in accepted
         case PrecommitType => Backed(cfg, honest, signed, PrevoteType, v.height, v.round, v.hash))
  }

  ghost predicate AllSupported(cfg: Config, honest: set<Address>, signed: Signatures, accepted: set<Acceptance>) {
    forall v: Vote :: HasSigned(signed, v) ==> Supported(cfg, honest, signed, accepted, v)
  }

  ghost predicate Decided(cfg: Config, honest: set<Address>, signed: Signatures, ev: CommitEvent) {
    ev.hash != 0 && Backed(cfg, honest, signed, PrecommitType, ev.height, ev.round, ev.hash)
  }

  ghost predicate AllDecided(cfg: Config, honest: set<Address>, signed: Signatures, commits: set<Commitment>) {
    forall c <- commits :: Decided(cfg, honest, signed, c.event)
  }

  ghost predicate AllNodes(nodes: map<Address, Node>, signed: Signatures) {
    forall a <- nodes.Keys :: NodeInv(nodes.Keys, signed, a, nodes[a])
  }

  ghost predicate AllSigned(signed: Signatures, sent: set<Vote>) {
    forall v <- sent :: HasSigned(signed, v)
  }

  ghost predicate Inv(cfg: Config, sys: System) {
    && AllNodes(sys.nodes, sys.signed)
    && AllSigned(sys.signed, sys.sent)
    && Unequivocal(sys.signed)
    && AllSupported(cfg, sys.nodes.Keys, sys.signed, sys.accepted)
    && AllDecided(cfg, sys.nodes.Keys, sys.signed, sys.commits)
  }

  /* ---------- signing one vote ---------- */

  lemma BackedGrows(cfg: Config, honest: set<Address>, signed: Signatures, v: Vote,
                    kind: VoteType, height: nat, round: nat, h: Hash)
    requires Backed(cfg, honest, signed, kind, height, round, h)
    ensures Backed(cfg, honest, Sign(signed, v), kind, height, round, h)
  {
    var q :| IsQuorum(cfg.powers, q) && Behind(honest, signed, kind, height, round, h, q);
    assert Behind(honest, Sign(signed, v), kind, height, round, h, q);
  }

  lemma AllDecidedGrows(cfg: Config, honest: set<Address>, signed: Signatures, v: Vote, commits: set<Commitment>)
    requires AllDecided(cfg, honest, signed, commits)
    ensures AllDecided(cfg, honest, Sign(signed, v), commits)
  {
    forall c | c in commits ensures Decided(cfg, honest, Sign(signed, v), c.event) {
      BackedGrows(cfg, honest, signed, v, PrecommitType, c.event.height, c.event.round, c.event.hash);
    }
  }

  lemma SupportGrows(cfg: Config, honest: set<Address>, signed: Signatures, v: Vote, accepted: set<Acceptance>, w: Vote)
    requires Supported(cfg, honest, signed, accepted, w)
    ensures Supported(cfg, honest, Sign(signed, v), accepted, w)
  {
    if w.hash != 0 && w.kind == PrecommitType {
      BackedGrows(cfg, honest, signed, v, PrevoteType, w.height, w.round, w.hash);
    }
  }

  lemma AllSupportedGrows(cfg: Config, honest: set<Address>, signed: Signatures, v: Vote, accepted: set<Acceptance>)
    requires AllSupported(cfg, honest, signed, accepted)
    requires Supported(cfg, honest, signed, accepted, v)
    ensures AllSupported(cfg, honest, Sign(signed, v), accepted)
  {
    forall w: Vote | HasSigned(Sign(signed, v), w) ensures Supported(cfg, honest, Sign(signed, v), accepted, w) {
      assert w == v || HasSigned(signed, w);
      SupportGrows(cfg, honest, signed, v, accepted, w);
    }
  }

  lemma OtherNode(honest: set<Address>, signed: Signatures, b: Address, n: Node, v: Vote)
    requires NodeInv(honest, signed, b, n) && v.validator != b
    ensures NodeInv(honest, Sign(signed, v), b, n)
  {
  }

  lemma AllNodesGrow(nodes: map<Address, Node>, signed: Signatures, a: Address, n: Node, v: Vote)
    requires AllNodes(nodes, signed) && a in nodes && v.validator == a
    requires NodeInv(nodes.Keys, Sign(signed, v), a, n)
    ensures AllNodes(nodes[a := n], Sign(signed, v))
  {
    assert nodes[a := n].Keys == nodes.Keys;
    forall b | b in nodes && b != a ensures NodeInv(nodes.Keys, Sign(signed, v), b, nodes[b]) {
      OtherNode(nodes.Keys, signed, b, nodes[b], v);
    }
  }

  lemma MoveKeepsNodes(nodes: map<Address, Node>, signed: Signatures, a: Address, n: Node)
    requires AllNodes(nodes, signed) && a in nodes
    requires NodeInv(nodes.Keys, signed, a, n)
    ensures AllNodes(nodes[a := n], signed)
  {
    assert nodes[a := n].Keys == nodes.Keys;
  }

  /** A node signs a vote for a slot it never signed, and a non-nil vote for a reason. */
  lemma SignKeepsInv(cfg: Config, sys: System, a: Address, n: Node, v: Vote)
    requires Inv(cfg, sys) && a in sys.nodes && v.validator == a
    requires SlotOf(v) !in sys.signed
    requires Supported(cfg, sys.nodes.Keys, sys.signed, sys.accepted, v)
    requires NodeInv(sys.nodes.Keys, Sign(sys.signed, v), a, n)
    ensures Inv(cfg, sys.(nodes := sys.nodes[a := n], signed := Sign(sys.signed, v)))
  {
    hide AllNodes, NodeInv, AllSupported, AllDecided, Supported;
    assert sys.nodes[a := n].Keys == sys.nodes.Keys;
    AllNodesGrow(sys.nodes, sys.signed, a, n, v);
    assert Unequivocal(Sign(sys.signed, v));
    assert AllSigned(Sign(sys.signed, v), sys.sent);
    AllSupportedGrows(cfg, sys.nodes.Keys, sys.signed, v, sys.accepted);
    AllDecidedGrows(cfg, sys.nodes.Keys, sys.signed, v, sys.commits);
  }

  /** A node moves without signing; signed votes, proposals and a decided commit go out. */
  lemma MoveKeepsInv(cfg: Config, sys: System, a: Address, n: Node, sent: set<Vote>, proposals: set<Proposal>,
                     commits: set<Commitment>)
    requires Inv(cfg, sys) && a in sys.nodes
    requires NodeInv(sys.nodes.Keys, sys.signed, a, n)
    requires AllSigned(sys.signed, sent)
    requires AllDecided(cfg, sys.nodes.Keys, sys.signed, commits)
    ensures Inv(cfg, sys.(nodes := sys.nodes[a := n], sent := sent, proposals := proposals, commits := commits))
  {
    assert sys.nodes[a := n].Keys == sys.nodes.Keys;
    MoveKeepsNodes(sys.nodes, sys.signed, a, n);
  }

  lemma AcceptKeepsInv(cfg: Config, sys: System, more: set<Acceptance>)
    requires Inv(cfg, sys)
    ensures Inv(cfg, sys.(accepted := sys.accepted + more))
  {
    forall v: Vote | HasSigned(sys.signed, v)
      ensures Supported(cfg, sys.nodes.Keys, sys.signed, sys.accepted + more, v)
    {
      assert Supported(cfg, sys.nodes.Keys, sys.signed, sys.accepted, v);
    }
  }

  /* ---------- steps of one node ---------- */

  /** The ballots behind a majority are a quorum of signed votes. */
  lemma MajorityIsBacked(cfg: Config, honest: set<Address>, signed: Signatures, kind: VoteType, height: nat,
                         round: nat, ballots: Ballots)
    requires Fits(cfg.powers)
    requires Genuine(honest, signed, kind, height, round, ballots)
    requires Majority(cfg, ballots).Some?
    ensures Backed(cfg, honest, signed, kind, height, round, Majority(cfg, ballots).value)
  {
    var h := Majority(cfg, ballots).value;
    assert Quorate(cfg, ballots, h);
    TestIsQuorum(cfg.powers, Voters(ballots, h));
    assert Behind(honest, signed, kind, height, round, h, Voters(ballots, h));
  }

  ghost predicate CommitBacked(cfg: Config, honest: set<Address>, signed: Signatures, commit: Option<CommitEvent>) {
    commit.Some? ==> Decided(cfg, honest, signed, commit.value)
  }

  lemma AfterPrecommit(cfg: Config, honest: set<Address>, signed: Signatures, a: Address, n: Node)
    requires Fits(cfg.powers)
    requires NodeInv(honest, signed, a, n)
    ensures NodeInv(honest, signed, a, n.(engine := TryAfterPrecommit(cfg, n.engine).0))
    ensures CommitBacked(cfg, honest, signed, TryAfterPrecommit(cfg, n.engine).1)
  {
    var e := n.engine;
    var e' := TryAfterPrecommit(cfg, e).0;
    if e.step == Precommit && Majority(cfg, e.precommits).Some? {
      MajorityIsBacked(cfg, honest, signed, PrecommitType, e.height, e.round, e.precommits);
      if e' != e {
        MovedOn(honest, signed, a, n, e');
      }
    }
  }

  /** Moving past a round, whatever the cause, with the votes reset and the lock released. */
  lemma MovedOn(honest: set<Address>, signed: Signatures, a: Address, n: Node, e: Engine)
    requires NodeInv(honest, signed, a, n)
    requires Before(n.engine, e) && e.address == a && LockDiscipline(e)
    requires e.prevotes == map[] && e.precommits == map[]
    ensures NodeInv(honest, signed, a, n.(engine := e))
  {
    forall s | s in signed && s.validator == a ensures Reached(e, s.height, s.round, RankOf(s.kind)) {
      assert Reached(n.engine, s.height, s.round, RankOf(s.kind));
    }
    forall w | w in n.validating ensures Reached(e, w.height, w.round, Rank(Prevote)) {
      assert Reached(n.engine, w.height, w.round, Rank(Prevote));
    }
  }

  /** Casting a precommit from Prevote: the slot is new, and the node is in order once it is signed. */
  lemma CastKeepsNode(honest: set<Address>, signed: Signatures, a: Address, n: Node, polka: Hash)
    requires NodeInv(honest, signed, a, n) && n.engine.step == Prevote
    ensures SlotOf(PrecommitOf(n.engine, polka)) !in signed
    ensures NodeInv(honest, Sign(signed, PrecommitOf(n.engine, polka)), a, n.(engine := CastPrecommit(n.engine, polka)))
  {
    var e, v := n.engine, PrecommitOf(n.engine, polka);
    var f, more := CastPrecommit(e, polka), Sign(signed, v);
    assert SlotOf(v) !in signed by {
      assert !Reached(e, e.height, e.round, Rank(Precommit));
    }
    forall s | s in more && s.validator == a ensures Reached(f, s.height, s.round, RankOf(s.kind)) {
      if s in signed {
        assert Reached(e, s.height, s.round, RankOf(s.kind));
      }
    }
    forall w | w in n.validating ensures Reached(f, w.height, w.round, Rank(Prevote)) {
      assert Reached(e, w.height, w.round, Rank(Prevote));
    }
  }

  /** Entering Prevote leaves a validation behind that no earlier vote and no other validation matches. */
  lemma BeginKeepsNode(honest: set<Address>, signed: Signatures, a: Address, n: Node, p: Option<Proposal>)
    requires NodeInv(honest, signed, a, n)
    requires n.engine.step == NewRound || n.engine.step == Propose
    ensures
      var (e, w) := BeginPrevote(n.engine.(proposal := p));
      NodeInv(honest, signed, a, n.(engine := e, validating := n.validating + {w}))
  {
    var (e, w) := BeginPrevote(n.engine.(proposal := p));
    forall s | s in signed && s.validator == a
      ensures Reached(e, s.height, s.round, RankOf(s.kind)) && s != Slot(PrevoteType, w.height, w.round, a)
    {
      assert Reached(n.engine, s.height, s.round, RankOf(s.kind));
    }
    forall x | x in n.validating
      ensures Reached(e, x.height, x.round, Rank(Prevote)) && !(x.height == w.height && x.round == w.round)
    {
      assert Reached(n.engine, x.height, x.round, Rank(Prevote));
    }
  }

  /** A finished validation signs the prevote of its round, which is then counted if the engine is still there. */
  lemma SignedNode(honest: set<Address>, signed: Signatures, a: Address, n: Node, w: Validation, v: Vote)
    requires NodeInv(honest, signed, a, n) && w in n.validating
    requires v == Vote(PrevoteType, w.height, w.round, v.hash, a)
    ensures SlotOf(v) !in signed
    ensures NodeInv(honest, Sign(signed, v), a, n.(validating := n.validating - {w}))
    ensures Current(n.engine, w.height, w.round, Prevote) ==>
      NodeInv(honest, Sign(signed, v), a,
              Node(n.engine.(prevotes := AddBallot(n.engine.prevotes, a, v.hash)), n.validating - {w}, n.building))
  {
    assert Reached(n.engine, w.height, w.round, Rank(Prevote));
  }

  /* ---------- steps of the system ---------- */

  lemma RecordQuiet(cfg: Config, sys: System, a: Address, n: Node, box: Outbox)
    requires Inv(cfg, sys) && a in sys.nodes
    requires NodeInv(sys.nodes.Keys, sys.signed, a, n)
    requires box.prevote.None? && box.precommit.None?
    requires CommitBacked(cfg, sys.nodes.Keys, sys.signed, box.commit)
    ensures Inv(cfg, Record(sys, a, n, None, box))
  {
    var next := Record(sys, a, n, None, box);
    assert next.sent == sys.sent;
    MoveKeepsInv(cfg, sys, a, n, next.sent, next.proposals, next.commits);
  }

  /** What follows the counting of one more prevote: perhaps a precommit, a commit or a new round. */
  lemma PrevoteCounted(cfg: Config, sys: System, a: Address, n: Node, e: Engine, box: Outbox)
    requires Fits(cfg.powers) && Inv(cfg, sys) && a in sys.nodes
    requires NodeInv(sys.nodes.Keys, sys.signed, a, n)
    requires (e, box) == TryAfterPrevote(cfg, n.engine)
    ensures Inv(cfg, Record(sys, a, n.(engine := e), None, box))
  {
    if n.engine.step != Prevote || Majority(cfg, n.engine.prevotes).None? {
      RecordQuiet(cfg, sys, a, n, Silent);
    } else {
      PolkaReached(cfg, sys, a, n, Majority(cfg, n.engine.prevotes).value);
    }
  }

  /** Signing one vote, then moving on from the node that signed it. */
  lemma SignAndMove(cfg: Config, sys: System, a: Address, v: Vote, n: Node, sent: set<Vote>, commits: set<Commitment>)
    requires Inv(cfg, sys) && a in sys.nodes && v.validator == a
    requires SlotOf(v) !in sys.signed
    requires Supported(cfg, sys.nodes.Keys, sys.signed, sys.accepted, v)
    requires NodeInv(sys.nodes.Keys, Sign(sys.signed, v), a, n)
    requires sent <= sys.sent + {v}
    requires forall c <- commits :: c in sys.commits || Decided(cfg, sys.nodes.Keys, Sign(sys.signed, v), c.event)
    ensures Inv(cfg, sys.(nodes := sys.nodes[a := n], signed := Sign(sys.signed, v), sent := sent, commits := commits))
  {
    SignKeepsInv(cfg, sys, a, n, v);
    var mid := sys.(nodes := sys.nodes[a := n], signed := Sign(sys.signed, v));
    assert mid.nodes.Keys == sys.nodes.Keys;
    assert AllSigned(mid.signed, sent);
    assert AllDecided(cfg, mid.nodes.Keys, mid.signed, commits);
  }

  lemma PolkaReached(cfg: Config, sys: System, a: Address, n: Node, polka: Hash)
    requires Fits(cfg.powers) && Inv(cfg, sys) && a in sys.nodes
    requires NodeInv(sys.nodes.Keys, sys.signed, a, n) && n.engine.step == Prevote
    requires Majority(cfg, n.engine.prevotes) == Some(polka)
    ensures
      var (e, commit) := TryAfterPrecommit(cfg, CastPrecommit(n.engine, polka));
      Inv(cfg, Record(sys, a, n.(engine := e), None, Outbox(None, None, Some(PrecommitOf(n.engine, polka)), commit)))
  {
    var v := PrecommitOf(n.engine, polka);
    var cast := n.(engine := CastPrecommit(n.engine, polka));
    MajorityIsBacked(cfg, sys.nodes.Keys, sys.signed, PrevoteType, n.engine.height, n.engine.round, n.engine.prevotes);
    CastKeepsNode(sys.nodes.Keys, sys.signed, a, n, polka);
    AfterPrecommit(cfg, sys.nodes.Keys, Sign(sys.signed, v), a, cast);
    PolkaRecorded(cfg, sys, a, n, v, TryAfterPrecommit(cfg, cast.engine).0, TryAfterPrecommit(cfg, cast.engine).1);
  }

  lemma PolkaRecorded(cfg: Config, sys: System, a: Address, n: Node, v: Vote, e: Engine, commit: Option<CommitEvent>)
    requires Inv(cfg, sys) && a in sys.nodes && v.validator == a
    requires SlotOf(v) !in sys.signed
    requires Supported(cfg, sys.nodes.Keys, sys.signed, sys.accepted, v)
    requires NodeInv(sys.nodes.Keys, Sign(sys.signed, v), a, n.(engine := e))
    requires CommitBacked(cfg, sys.nodes.Keys, Sign(sys.signed, v), commit)
    ensures Inv(cfg, Record(sys, a, n.(engine := e), None, Outbox(None, None, Some(v), commit)))
  {
    var next := Record(sys, a, n.(engine := e), None, Outbox(None, None, Some(v), commit));
    SignAndMove(cfg, sys, a, v, n.(engine := e), next.sent, next.commits);
    assert next == sys.(nodes := next.nodes, signed := next.signed, sent := next.sent, commits := next.commits);
  }

  lemma PrevoteReceived(cfg: Config, sys: System, a: Address, v: Vote)
    requires Fits(cfg.powers) && Inv(cfg, sys) && Enabled(sys, ReceiveVote(a, v))
    requires
      var e := sys.nodes[a].engine;
      v.height == e.height && v.round == e.round && v.validator in cfg.powers && v.kind == PrevoteType
    ensures Inv(cfg, Next(cfg, sys, ReceiveVote(a, v)))
  {
    var n := sys.nodes[a];
    var e := n.engine;
    assert NodeInv(sys.nodes.Keys, sys.signed, a, n);
    hide AllNodes, Unequivocal, AllSupported, AllDecided;
    if v.validator in e.prevotes {
      RecordQuiet(cfg, sys, a, n, Silent);
    } else {
      var counted := n.(engine := e.(prevotes := AddBallot(e.prevotes, v.validator, v.hash)));
      var (e', box) := TryAfterPrevote(cfg, counted.engine);
      PrevoteCounted(cfg, sys, a, counted, e', box);
    }
  }

  lemma PrecommitReceived(cfg: Config, sys: System, a: Address, v: Vote)
    requires Fits(cfg.powers) && Inv(cfg, sys) && Enabled(sys, ReceiveVote(a, v))
    requires
      var e := sys.nodes[a].engine;
      v.height == e.height && v.round == e.round && v.validator in cfg.powers && v.kind == PrecommitType
    ensures Inv(cfg, Next(cfg, sys, ReceiveVote(a, v)))
  {
    var n := sys.nodes[a];
    var e := n.engine;
    assert NodeInv(sys.nodes.Keys, sys.signed, a, n);
    hide AllNodes, Unequivocal, AllSupported, AllDecided;
    if v.validator in e.precommits {
      RecordQuiet(cfg, sys, a, n, Silent);
    } else {
      var counted := n.(engine := e.(precommits := AddBallot(e.precommits, v.validator, v.hash)));
      AfterPrecommit(cfg, sys.nodes.Keys, sys.signed, a, counted);
      var (e', commit) := TryAfterPrecommit(cfg, counted.engine);
      RecordQuiet(cfg, sys, a, n.(engine := e'), Silent.(commit := commit));
    }
  }

  lemma ReceiveVoteKeepsInv(cfg: Config, sys: System, a: Address, v: Vote)
    requires Fits(cfg.powers) && Inv(cfg, sys) && Enabled(sys, ReceiveVote(a, v))
    ensures Inv(cfg, Next(cfg, sys, ReceiveVote(a, v)))
  {
    var n := sys.nodes[a];
    if v.height != n.engine.height || v.round != n.engine.round || v.validator !in cfg.powers {
      assert NodeInv(sys.nodes.Keys, sys.signed, a, n);
      RecordQuiet(cfg, sys, a, n, Silent);
    } else if v.kind == PrevoteType {
      PrevoteReceived(cfg, sys, a, v);
    } else {
      PrecommitReceived(cfg, sys, a, v);
    }
  }

  /** The end of a validation signs the only prevote of its round. */
  lemma ValidatedKeepsInv(cfg: Config, sys: System, a: Address, w: Validation, valid: bool)
    requires Fits(cfg.powers) && Inv(cfg, sys) && Enabled(sys, Validated(a, w, valid))
    ensures Inv(cfg, Next(cfg, sys, Validated(a, w, valid)))
  {
    var n := sys.nodes[a];
    var v := PrevoteOf(n.engine, w, valid);
    var judged := sys.(accepted := sys.accepted + AsSet(Verdict(a, w, valid)));
    assert NodeInv(sys.nodes.Keys, sys.signed, a, n);
    AcceptKeepsInv(cfg, sys, AsSet(Verdict(a, w, valid)));
    PrevoteIsSupported(cfg, sys.nodes.Keys, sys.signed, sys.accepted, a, n.engine, w, valid);
    SignedNode(sys.nodes.Keys, sys.signed, a, n, w, v);
    if Current(n.engine, w.height, w.round, Prevote) {
      var counted := n.engine.(prevotes := AddBallot(n.engine.prevotes, a, v.hash));
      CountOwnPrevote(cfg, judged, a, Node(counted, n.validating - {w}, n.building), v);
    } else {
      StaleVote(cfg, judged, a, n.(validating := n.validating - {w}), v);
    }
  }

  lemma PrevoteIsSupported(cfg: Config, honest: set<Address>, signed: Signatures, accepted: set<Acceptance>,
                           a: Address, e: Engine, w: Validation, valid: bool)
    requires a in honest && e.address == a && w.lockedRound == -1
    ensures Supported(cfg, honest, signed, accepted + AsSet(Verdict(a, w, valid)), PrevoteOf(e, w, valid))
  {
    var h := PrevoteHash(w, valid);
    if h != 0 {
      assert Acceptance(a, w.height, w.round, w.parent, h) in accepted + AsSet(Verdict(a, w, valid));
    }
  }

  lemma StaleVote(cfg: Config, sys: System, a: Address, n: Node, v: Vote)
    requires Inv(cfg, sys) && a in sys.nodes && v.validator == a
    requires SlotOf(v) !in sys.signed
    requires Supported(cfg, sys.nodes.Keys, sys.signed, sys.accepted, v)
    requires NodeInv(sys.nodes.Keys, Sign(sys.signed, v), a, n)
    ensures Inv(cfg, Record(sys, a, n, Some(v), Silent))
  {
    var next := Record(sys, a, n, Some(v), Silent);
    SignAndMove(cfg, sys, a, v, n, next.sent, next.commits);
    assert next == sys.(nodes := next.nodes, signed := next.signed, sent := next.sent, commits := next.commits);
  }

  lemma CountOwnPrevote(cfg: Config, sys: System, a: Address, n: Node, v: Vote)
    requires Fits(cfg.powers) && Inv(cfg, sys) && a in sys.nodes && v.validator == a
    requires SlotOf(v) !in sys.signed
    requires Supported(cfg, sys.nodes.Keys, sys.signed, sys.accepted, v)
    requires NodeInv(sys.nodes.Keys, Sign(sys.signed, v), a, n)
    ensures
      var (e, box) := TryAfterPrevote(cfg, n.engine);
      Inv(cfg, Record(sys, a, n.(engine := e), Some(v), box.(prevote := Some(v))))
  {
    var (e, box) := TryAfterPrevote(cfg, n.engine);
    SignAndMove(cfg, sys, a, v, n, sys.sent + {v}, sys.commits);
    var mid := sys.(nodes := sys.nodes[a := n], signed := Sign(sys.signed, v), sent := sys.sent + {v});
    assert mid.nodes.Keys == sys.nodes.Keys;
    PrevoteCounted(cfg, mid, a, n, e, box);
    SameRecord(sys, a, n, v, n.(engine := e), box);
  }

  /** Recording a prevote and what followed it in one go or in two. */
  lemma SameRecord(sys: System, a: Address, n: Node, v: Vote, done: Node, box: Outbox)
    requires box.prevote.None?
    ensures Record(sys.(nodes := sys.nodes[a := n], signed := Sign(sys.signed, v), sent := sys.sent + {v}), a, done,
                   None, box)
         == Record(sys, a, done, Some(v), box.(prevote := Some(v)))
  {
    assert sys.nodes[a := n][a := done] == sys.nodes[a := done];
  }

  lemma MoveOnKeepsInv(cfg: Config, sys: System, act: Action)
    requires Inv(cfg, sys) && Enabled(sys, act) && (act.StartRound? || act.Timeout? || act.Synced?)
    ensures Inv(cfg, Next(cfg, sys, act))
  {
    var a, n := act.at, sys.nodes[act.at];
    assert NodeInv(sys.nodes.Keys, sys.signed, a, n);
    var next := Next(cfg, sys, act);
    var e' := next.nodes[a].engine;
    if e' != n.engine {
      MovedOn(sys.nodes.Keys, sys.signed, a, n, e');
    }
    RecordQuiet(cfg, sys, a, next.nodes[a], Silent);
  }

  lemma BeginPrevoteKeepsInv(cfg: Config, sys: System, act: Action)
    requires Inv(cfg, sys) && Enabled(sys, act) && (act.BlockBuilt? || act.ReceiveProposal?)
    ensures Inv(cfg, Next(cfg, sys, act))
  {
    var a, n := act.at, sys.nodes[act.at];
    assert NodeInv(sys.nodes.Keys, sys.signed, a, n);
    if act.BlockBuilt? {
      var (e', v, box) := EndStartRound(n.engine, act.build, act.block);
      if v.Some? {
        BeginKeepsNode(sys.nodes.Keys, sys.signed, a, n, box.proposal);
      }
      RecordQuiet(cfg, sys, a, Node(e', n.validating + AsSet(v), n.building - {act.build}), box);
    } else {
      var (e', v) := HandleProposal(cfg, n.engine, act.proposal);
      if v.Some? {
        BeginKeepsNode(sys.nodes.Keys, sys.signed, a, n, Some(act.proposal));
      }
      RecordQuiet(cfg, sys, a, n.(engine := e', validating := n.validating + AsSet(v)), Silent);
    }
  }

  lemma NextKeepsInv(cfg: Config, sys: System, act: Action)
    requires Fits(cfg.powers) && Inv(cfg, sys) && Enabled(sys, act)
    ensures Inv(cfg, Next(cfg, sys, act))
  {
    match act
    case StartRound(_) => MoveOnKeepsInv(cfg, sys, act);
    case BlockBuilt(_, _, _) => BeginPrevoteKeepsInv(cfg, sys, act);
    case ReceiveProposal(_, _) => BeginPrevoteKeepsInv(cfg, sys, act);
    case Validated(a, v, valid) => ValidatedKeepsInv(cfg, sys, a, v, valid);
    case ReceiveVote(a, v) => ReceiveVoteKeepsInv(cfg, sys, a, v);
    case Timeout(_) => MoveOnKeepsInv(cfg, sys, act);
    case Synced(_, _, _, _) => MoveOnKeepsInv(cfg, sys, act);
  }

  lemma NextKeepsNodes(cfg: Config, sys: System, act: Action)
    requires Enabled(sys, act)
    ensures Next(cfg, sys, act).nodes.Keys == sys.nodes.Keys
  {
  }

  /** Only the node at `a` moves. */
  ghost predicate OnlyAt(sys: System, next: System, a: Address) {
    && next.nodes.Keys == sys.nodes.Keys
    && (forall b <- sys.nodes.Keys :: b != a ==> next.nodes[b] == sys.nodes[b])
  }

  lemma OthersStay(cfg: Config, sys: System, act: Action)
    requires Enabled(sys, act)
    ensures act.at in sys.nodes && OnlyAt(sys, Next(cfg, sys, act), act.at)
  {
  }

  /* ---------- whole runs ---------- */

  lemma ActionOf(cfg: Config, run: seq<System>, i: nat) returns (act: Action)
    requires IsRun(cfg, run) && 0 < i < |run|
    ensures Enabled(run[i - 1], act) && run[i] == Next(cfg, run[i - 1], act)
  {
    hide Next, Enabled;
    assert Follows(cfg, run[i - 1], run[i]);
    act :| Enabled(run[i - 1], act) && run[i] == Next(cfg, run[i - 1], act);
  }

  lemma {:induction false} RunKeepsInv(cfg: Config, run: seq<System>, i: nat)
    requires Fits(cfg.powers) && IsRun(cfg, run) && i < |run|
    ensures Inv(cfg, run[i]) && run[i].nodes.Keys == run[0].nodes.Keys
  {
    if i > 0 {
      RunKeepsInv(cfg, run, i - 1);
      assert Follows(cfg, run[i - 1], run[i]);
      var act :| Enabled(run[i - 1], act) && run[i] == Next(cfg, run[i - 1], act);
      NextKeepsInv(cfg, run[i - 1], act);
      NextKeepsNodes(cfg, run[i - 1], act);
    }
  }

  ghost function Last(run: seq<System>): System
    requires run != []
  {
    run[|run| - 1]
  }

  lemma Extend(cfg: Config, run: seq<System>, act: Action) returns (longer: seq<System>)
    requires IsRun(cfg, run) && Enabled(Last(run), act)
    ensures IsRun(cfg, longer) && run <= longer && longer[0] == run[0]
    ensures Last(longer) == Next(cfg, Last(run), act)
  {
    longer := run + [Next(cfg, Last(run), act)];
    forall i | 0 < i < |longer| ensures Follows(cfg, longer[i - 1], longer[i]) {
      if i < |run| {
        assert Follows(cfg, run[i - 1], run[i]);
      } else {
        assert longer[i - 1] == Last(run);
      }
    }
  }

  /** Two backed hashes of one height share an honest signer. */
  lemma SharedSigner(cfg: Config, sys: System, kind: VoteType, height: nat, r: nat, h: Hash, s: nat, g: Hash)
    returns (a: Address)
    requires FaultBound(cfg, sys)
    requires Backed(cfg, sys.nodes.Keys, sys.signed, kind, height, r, h)
    requires Backed(cfg, sys.nodes.Keys, sys.signed, kind, height, s, g)
    ensures a in sys.nodes
    ensures HasSigned(sys.signed, Vote(kind, height, r, h, a)) && HasSigned(sys.signed, Vote(kind, height, s, g, a))
  {
    var p :| IsQuorum(cfg.powers, p) && Behind(sys.nodes.Keys, sys.signed, kind, height, r, h, p);
    var q :| IsQuorum(cfg.powers, q) && Behind(sys.nodes.Keys, sys.signed, kind, height, s, g, q);
    a := QuorumsMeet(cfg.powers, p, q, cfg.powers.Keys - sys.nodes.Keys);
  }

  lemma OneHashPerSlot(signed: Signatures, v: Vote, w: Vote)
    requires Unequivocal(signed) && HasSigned(signed, v) && HasSigned(signed, w) && SlotOf(v) == SlotOf(w)
    ensures v == w
  {
    var hashes := signed[SlotOf(v)];
    assert hashes == {v.hash} + (hashes - {v.hash});
  }

  /** Round agreement: no two honest engines ever commit different blocks for the same height and round. */
  lemma RoundAgreement(cfg: Config, run: seq<System>, c: Commitment, d: Commitment)
    requires IsRun(cfg, run) && FaultBound(cfg, run[0])
    requires c in Last(run).commits && d in Last(run).commits
    requires c.event.height == d.event.height && c.event.round == d.event.round
    ensures c.event.hash == d.event.hash
  {
    var sys, x, y := Last(run), c.event, d.event;
    RunKeepsInv(cfg, run, |run| - 1);
    assert Decided(cfg, sys.nodes.Keys, sys.signed, x) && Decided(cfg, sys.nodes.Keys, sys.signed, y);
    var a := SharedSigner(cfg, sys, PrecommitType, x.height, x.round, x.hash, y.round, y.hash);
    OneHashPerSlot(sys.signed, Vote(PrecommitType, x.height, x.round, x.hash, a),
                   Vote(PrecommitType, y.height, y.round, y.hash, a));
  }

  /**
   Validity: a committed block was accepted by the proposal validator of an honest engine, in the round
   it was committed in. A block every honest validator rejects is never committed.
   */
  lemma CommittedWasAccepted(cfg: Config, run: seq<System>, c: Commitment)
    requires IsRun(cfg, run) && FaultBound(cfg, run[0])
    requires c in Last(run).commits
    ensures c.event.hash != 0
    ensures exists a, parent | a in run[0].nodes ::
      Acceptance(a, c.event.height, c.event.round, parent, c.event.hash) in Last(run).accepted
  {
    var sys, x := Last(run), c.event;
    RunKeepsInv(cfg, run, |run| - 1);
    assert Decided(cfg, sys.nodes.Keys, sys.signed, x);
    var b := SharedSigner(cfg, sys, PrecommitType, x.height, x.round, x.hash, x.round, x.hash);
    assert Supported(cfg, sys.nodes.Keys, sys.signed, sys.accepted, Vote(PrecommitType, x.height, x.round, x.hash, b));
    var a := SharedSigner(cfg, sys, PrevoteType, x.height, x.round, x.hash, x.round, x.hash);
    assert Supported(cfg, sys.nodes.Keys, sys.signed, sys.accepted, Vote(PrevoteType, x.height, x.round, x.hash, a));
  }

  /** Evidence that VerifyDoubleSign accepts: one slot, two hashes, not both nil. */
  predicate DoubleSign(v: Vote, w: Vote) {
    && SlotOf(v) == SlotOf(w)
    && v.hash != w.hash
    && !(v.hash == 0 && w.hash == 0)
  }

  /** No run makes an honest engine sign evidence against itself, whatever happens while its lock is free. */
  lemma NoSelfIncrimination(cfg: Config, run: seq<System>, v: Vote, w: Vote)
    requires Fits(cfg.powers) && IsRun(cfg, run)
    requires HasSigned(Last(run).signed, v) && HasSigned(Last(run).signed, w)
    ensures !DoubleSign(v, w)
  {
    RunKeepsInv(cfg, run, |run| - 1);
    if SlotOf(v) == SlotOf(w) {
      OneHashPerSlot(Last(run).signed, v, w);
    }
  }

  /** No honest validator precommits two different blocks at one height. */
  ghost predicate NoSwitch(sys: System, height: nat) {
    forall a, r, s, h, g :: a in sys.nodes && h != 0 && g != 0
      && HasSigned(sys.signed, Vote(PrecommitType, height, r, h, a))
      && HasSigned(sys.signed, Vote(PrecommitType, height, s, g, a))
      ==> h == g
  }

  /**
   Across rounds the lock is released, so agreement needs a condition: a height has one committed block
   in every run in which no honest validator precommits two blocks at that height.
   */
  lemma AgreementWithoutSwitch(cfg: Config, run: seq<System>, c: Commitment, d: Commitment)
    requires IsRun(cfg, run) && FaultBound(cfg, run[0])
    requires c in Last(run).commits && d in Last(run).commits
    requires c.event.height == d.event.height && NoSwitch(Last(run), c.event.height)
    ensures c.event.hash == d.event.hash
  {
    var sys, x, y := Last(run), c.event, d.event;
    RunKeepsInv(cfg, run, |run| - 1);
    assert Decided(cfg, sys.nodes.Keys, sys.signed, x) && Decided(cfg, sys.nodes.Keys, sys.signed, y);
    var a := SharedSigner(cfg, sys, PrecommitType, x.height, x.round, x.hash, y.round, y.hash);
  }

  /** (height, round, step) never goes back, in any step of any engine. */
  lemma PositionsAdvance(cfg: Config, sys: System, act: Action, a: Address)
    requires Enabled(sys, act) && a in sys.nodes
    ensures a in Next(cfg, sys, act).nodes
    ensures NotAfter(sys.nodes[a].engine, Next(cfg, sys, act).nodes[a].engine)
  {
    if act.ReceiveVote? {
      VotesAdvance(cfg, sys.nodes[act.at].engine, act.vote);
    } else if act.Validated? {
      ValidationAdvances(cfg, sys.nodes[act.at].engine, act.validation, act.valid);
    }
  }
}
