/** Multisignature governance of the attestation contract
    (contracts/attestation/src/multisig.rs and `execute_proposal` in its lib.rs).

    Each proposal freezes the owner list and threshold in force when it was created. The
    lemmas follow proposals through any run in which owners, threshold and proposals change.
 */
module Multisig {
  import opened Base

  const DEFAULT_PROPOSAL_EXPIRY: nat := 100_000
  const PROPOSAL_COOLDOWN_LEDGERS: nat := 1_000
  const DEFAULT_PROPOSAL_EXPIRY_GRACE: nat := 10_000

  datatype Action =
    | Pause
    | Unpause
    | AddOwner(who: Address)
    | RemoveOwner(who: Address)
    | ChangeThreshold(threshold: nat)
    | GrantRole(who: Address, role: nat)
    | RevokeRole(who: Address, role: nat)
    | UpdateFeeConfig(token: Address, collector: Address, baseFee: int, enabled: bool)
    | EmergencyRotateAdmin(who: Address)
    | EmergencyPause

  datatype Status = Pending | Executed | Rejected | Expired

  datatype Proposal = Proposal(id: nat, action: Action, proposer: Address, status: Status, createdAt: nat)

  datatype Snapshot = Snapshot(owners: seq<Address>, threshold: nat, totalWeight: nat, createdAt: nat, actionTag: nat)

  /** The storage; an empty owner list means the multisig is not initialized. */
  datatype Council = Council(
    owners: seq<Address>,
    threshold: nat,
    nextId: nat,
    proposals: map<nat, Proposal>,
    approvals: map<nat, seq<Address>>,
    expiry: map<nat, nat>,
    snapshots: map<nat, Snapshot>,
    lastQuorumChange: nat,
    grace: nat)
  {
    function ApprovalsOf(id: nat): seq<Address> {
      Get(approvals, id, [])
    }

    predicate IsExpired(id: nat, now: nat) {
      id in expiry && now > expiry[id]
    }

    predicate IsPending(id: nat, now: nat) {
      id in proposals && !IsExpired(id, now) && proposals[id].status == Pending
    }
  }

  const Empty := Council([], 1, 0, map[], map[], map[], map[], 0, DEFAULT_PROPOSAL_EXPIRY_GRACE)

  function ActionTag(a: Action): nat {
    match a
    case Pause => 1
    case Unpause => 2
    case AddOwner(_) => 3
    case RemoveOwner(_) => 4
    case ChangeThreshold(_) => 5
    case GrantRole(_, _) => 6
    case RevokeRole(_, _) => 7
    case UpdateFeeConfig(_, _, _, _) => 8
    case EmergencyRotateAdmin(_) => 9
    case EmergencyPause => 10
  }

  /* ---------- Counting and list surgery ---------- */

  function CountIn(xs: seq<Address>, allowed: seq<Address>): nat {
    if xs == [] then 0
    else CountIn(xs[..|xs| - 1], allowed) + if xs[|xs| - 1] in allowed then 1 else 0
  }

  function Without(xs: seq<Address>, who: Address): seq<Address> {
    if xs == [] then []
    else Without(xs[..|xs| - 1], who) + if xs[|xs| - 1] == who then [] else [xs[|xs| - 1]]
  }

  /** Removal in place: the last element takes the freed slot. */
  function SwapPop(xs: seq<Address>, i: nat): seq<Address>
    requires i < |xs|
  {
    xs[i := xs[|xs| - 1]][..|xs| - 1]
  }

  function Position(xs: seq<Address>, who: Address): Option<nat> {
    if xs == [] then None
    else
      match Position(xs[..|xs| - 1], who)
      case Some(i) => Some(i)
      case None => if xs[|xs| - 1] == who then Some(|xs| - 1) else None
  }

  lemma {:induction false} PositionFinds(xs: seq<Address>, who: Address)
    ensures Position(xs, who).Some? <==> who in xs
    ensures Position(xs, who).Some? ==> Position(xs, who).value < |xs| && xs[Position(xs, who).value] == who
  {
    if xs != [] {
      PositionFinds(xs[..|xs| - 1], who);
    }
  }

  /** Swap-and-pop loses exactly one approver, whatever the order becomes. */
  lemma SwapPopRemovesOne(xs: seq<Address>, i: nat)
    requires i < |xs| && Distinct(xs)
    ensures Distinct(SwapPop(xs, i))
    ensures forall x :: x in SwapPop(xs, i) <==> x in xs && x != xs[i]
  {
    var ys := SwapPop(xs, i);
    forall x | x in xs && x != xs[i] ensures x in ys {
      var k :| 0 <= k < |xs| && xs[k] == x;
      assert k < |xs| - 1 ==> ys[k] == x;
      assert k == |xs| - 1 ==> ys[i] == x;
    }
  }

  lemma {:induction false} WithoutKeepsOthers(xs: seq<Address>, who: Address)
    ensures forall x :: x in Without(xs, who) <==> x in xs && x != who
    ensures Distinct(xs) ==> Distinct(Without(xs, who))
  {
    if xs != [] {
      WithoutKeepsOthers(xs[..|xs| - 1], who);
      if Distinct(xs) {
        assert xs[|xs| - 1] !in Without(xs[..|xs| - 1], who);
      }
    }
  }

  lemma {:induction false} WithoutRemovesAll(xs: seq<Address>, who: Address)
    ensures multiset(Without(xs, who)) == multiset(xs)[who := 0]
  {
    if xs != [] {
      WithoutRemovesAll(xs[..|xs| - 1], who);
      assert xs == xs[..|xs| - 1] + [xs[|xs| - 1]];
    }
  }

  lemma {:induction false} AllCounted(xs: seq<Address>, allowed: seq<Address>)
    requires forall x :: x in xs ==> x in allowed
    ensures CountIn(xs, allowed) == |xs|
  {
    if xs != [] {
      AllCounted(xs[..|xs| - 1], allowed);
    }
  }

  /* ---------- Specification of the operations ---------- */

  function Initialize(c: Council, owners: seq<Address>, threshold: nat): Option<Council> {
    if c.owners != [] || threshold == 0 || threshold > |owners| then None
    else Some(c.(owners := owners, threshold := threshold))
  }

  predicate CooldownOver(c: Council, a: Action, now: nat) {
    a.ChangeThreshold? ==> now >= c.lastQuorumChange + PROPOSAL_COOLDOWN_LEDGERS
  }

  /** `now` is the ledger sequence, a 32-bit number whose sums must not overflow. */
  function Create(c: Council, who: Address, a: Action, now: nat): Option<Council> {
    if who !in c.owners || !CooldownOver(c, a, now) then None
    else if c.nextId >= U64_MAX || now + DEFAULT_PROPOSAL_EXPIRY > U32_MAX then None
    else Some(c.(
      nextId := c.nextId + 1,
      proposals := c.proposals[c.nextId := Proposal(c.nextId, a, who, Pending, now)],
      approvals := c.approvals[c.nextId := [who]],
      expiry := c.expiry[c.nextId := now + DEFAULT_PROPOSAL_EXPIRY],
      snapshots := c.snapshots[c.nextId := Snapshot(c.owners, c.threshold, |c.owners|, now, ActionTag(a))]))
  }

  function Approve(c: Council, who: Address, id: nat, now: nat): Option<Council> {
    if !c.IsPending(id, now) then None
    else if id in c.snapshots && who !in c.snapshots[id].owners then None
    else if who !in c.owners || who in c.ApprovalsOf(id) then None
    else Some(c.(approvals := c.approvals[id := c.ApprovalsOf(id) + [who]]))
  }

  /** Withdrawing an approval that was never given commits and changes nothing. */
  function Unapprove(c: Council, who: Address, id: nat, now: nat): Option<Council> {
    if !c.IsPending(id, now) then None
    else
      PositionFinds(c.ApprovalsOf(id), who);
      match Position(c.ApprovalsOf(id), who)
      case None => Some(c)
      case Some(i) => Some(c.(approvals := c.approvals[id := SwapPop(c.ApprovalsOf(id), i)]))
  }

  /** Any owner may reject any stored proposal, whatever its status. */
  function Reject(c: Council, who: Address, id: nat): Option<Council> {
    if who !in c.owners || id !in c.proposals then None
    else Some(c.(proposals := c.proposals[id := c.proposals[id].(status := Rejected)]))
  }

  function EffectiveThreshold(c: Council, id: nat): nat {
    if id in c.snapshots then c.snapshots[id].threshold else c.threshold
  }

  function ApprovalCount(c: Council, id: nat): nat {
    if id in c.snapshots then CountIn(c.ApprovalsOf(id), c.snapshots[id].owners) else |c.ApprovalsOf(id)|
  }

  function MarkExecuted(c: Council, id: nat, now: nat): Option<Council> {
    if !c.IsPending(id, now) || ApprovalCount(c, id) < EffectiveThreshold(c, id) then None
    else Some(c.(
      proposals := c.proposals[id := c.proposals[id].(status := Executed)],
      lastQuorumChange := if c.proposals[id].action.ChangeThreshold? then now else c.lastQuorumChange))
  }

  /** `hostOk` stands for what is decided elsewhere: the new owner's own signature for
      `AddOwner`, and the role, fee, pause and key modules for the remaining actions. */
  function Dispatch(c: Council, a: Action, hostOk: bool): Option<Council> {
    match a
    case AddOwner(who) =>
      if !hostOk || who in c.owners then None else Some(c.(owners := c.owners + [who]))
    case RemoveOwner(who) =>
      var rest := Without(c.owners, who);
      if who !in c.owners || |c.owners| <= 1 || |rest| < c.threshold || rest == [] then None
      else Some(c.(owners := rest))
    case ChangeThreshold(t) =>
      if t == 0 || t > |c.owners| then None else Some(c.(threshold := t))
    case _ =>
      if hostOk then Some(c) else None
  }

  function Execute(c: Council, who: Address, id: nat, now: nat, hostOk: bool): Option<Council> {
    if who !in c.owners || id !in c.proposals then None
    else
      match MarkExecuted(c, id, now)
      case None => None
      case Some(marked) => Dispatch(marked, c.proposals[id].action, hostOk)
  }

  /** Removes the stale ones among the first `n` proposals. */
  function CleanFirst(c: Council, n: nat, now: nat): Option<Council> {
    if n == 0 then Some(c)
    else
      match CleanFirst(c, n - 1, now)
      case None => None
      case Some(d) => CleanOne(d, n - 1, now)
  }

  /** One proposal is removed once its expiry and the grace after it have passed. */
  function CleanOne(c: Council, id: nat, now: nat): Option<Council> {
    if id !in c.expiry then Some(c)
    else if c.expiry[id] + c.grace > U32_MAX then None
    else if now <= c.expiry[id] + c.grace || id !in c.proposals then Some(c)
    else Some(Forget(c, id))
  }

  function Forget(c: Council, id: nat): Council {
    c.(proposals := c.proposals - {id}, approvals := c.approvals - {id},
       expiry := c.expiry - {id}, snapshots := c.snapshots - {id})
  }

  function Cleanup(c: Council, limit: nat, now: nat): Option<Council> {
    CleanFirst(c, Min(limit, c.nextId), now)
  }

  datatype Refusal = NotFound | HasExpired | NotPending | NotApproved

  datatype Effect = Effect(refusal: Option<Refusal>, predicted: Status, approvals: nat, required: nat) {
    predicate WouldExecute() {
      refusal.None?
    }
  }

  /** The read-only forecast. */
  function Preview(c: Council, id: nat, now: nat): Effect {
    if id !in c.proposals then Effect(Some(NotFound), Pending, 0, 0)
    else
      var n, need := ApprovalCount(c, id), EffectiveThreshold(c, id);
      if c.IsExpired(id, now) then Effect(Some(HasExpired), Expired, n, need)
      else if c.proposals[id].status != Pending then Effect(Some(NotPending), c.proposals[id].status, n, need)
      else if n < need then Effect(Some(NotApproved), Pending, n, need)
      else Effect(None, Executed, n, need)
  }

  /* ---------- Runs ---------- */

  datatype Call =
    | InitializeCall(owners: seq<Address>, threshold: nat)
    | CreateCall(who: Address, action: Action)
    | ApproveCall(who: Address, id: nat)
    | UnapproveCall(who: Address, id: nat)
    | RejectCall(who: Address, id: nat)
    | ExecuteCall(who: Address, id: nat, hostOk: bool)
    | CleanupCall(limit: nat)
    | SetGraceCall(ledgers: nat)

  function Apply(c: Council, call: Call, now: nat): Option<Council> {
    match call
    case InitializeCall(owners, threshold) => Initialize(c, owners, threshold)
    case CreateCall(who, action) => Create(c, who, action, now)
    case ApproveCall(who, id) => Approve(c, who, id, now)
    case UnapproveCall(who, id) => Unapprove(c, who, id, now)
    case RejectCall(who, id) => Reject(c, who, id)
    case ExecuteCall(who, id, hostOk) => Execute(c, who, id, now, hostOk)
    case CleanupCall(limit) => Cleanup(c, limit, now)
    case SetGraceCall(ledgers) => Some(c.(grace := ledgers))
  }

  /** One dispatched action with the votes and the frozen rules it was dispatched under. */
  datatype Dispatched = Dispatched(id: nat, action: Action, approvers: seq<Address>, snapshot: Snapshot)

  /** A call and the ledger sequence it runs at; the sequence numbers need not be ordered. */
  datatype Step = Step(call: Call, now: nat)

  datatype Run = Run(council: Council, dispatched: seq<Dispatched>)

  function Next(r: Run, step: Step): Run {
    match Apply(r.council, step.call, step.now)
    case None => r
    case Some(after) =>
      Run(after,
          if step.call.ExecuteCall? && step.call.id in r.council.proposals && step.call.id in r.council.snapshots
          then r.dispatched + [Dispatched(step.call.id, r.council.proposals[step.call.id].action,
                                          r.council.ApprovalsOf(step.call.id), r.council.snapshots[step.call.id])]
          else r.dispatched)
  }

  function After(r: Run, steps: seq<Step>): Run {
    if steps == [] then r else Next(After(r, steps[..|steps| - 1]), steps[|steps| - 1])
  }

  const Start := Run(Empty, [])

  /* ---------- The invariant ---------- */

  ghost predicate SnapshotOk(s: Snapshot) {
    1 <= s.threshold <= |s.owners| == s.totalWeight
  }

  ghost predicate ProposalOk(c: Council, id: nat) {
    && id in c.proposals && id in c.approvals && id in c.expiry && id in c.snapshots
    && id < c.nextId
    && c.proposals[id].id == id
    && c.expiry[id] == c.proposals[id].createdAt + DEFAULT_PROPOSAL_EXPIRY <= U32_MAX
    && c.proposals[id].status != Expired
    && SnapshotOk(c.snapshots[id])
    && c.snapshots[id].actionTag == ActionTag(c.proposals[id].action)
    && Distinct(c.approvals[id])
    && forall x :: x in c.approvals[id] ==> x in c.snapshots[id].owners
  }

  ghost predicate Inv(c: Council) {
    && (if c.owners == [] then c.proposals == map[] else 1 <= c.threshold <= |c.owners|)
    && c.approvals.Keys == c.expiry.Keys == c.snapshots.Keys == c.proposals.Keys
    && forall id :: id in c.proposals ==> ProposalOk(c, id)
  }

  /** A council that differs only in owners, threshold and the cooldown and grace settings. */
  ghost predicate SameProposals(c: Council, d: Council) {
    && d.proposals == c.proposals && d.approvals == c.approvals && d.expiry == c.expiry
    && d.snapshots == c.snapshots && d.nextId == c.nextId
  }

  lemma SameProposalsStayOk(c: Council, d: Council)
    requires Inv(c) && SameProposals(c, d)
    requires if d.owners == [] then d.proposals == map[] else 1 <= d.threshold <= |d.owners|
    ensures Inv(d)
  {
    forall id | id in d.proposals ensures ProposalOk(d, id) {
      assert ProposalOk(c, id);
    }
  }

  lemma ForgetKeepsInv(c: Council, id: nat)
    requires Inv(c)
    ensures Inv(Forget(c, id))
  {
    forall x | x in Forget(c, id).proposals ensures ProposalOk(Forget(c, id), x) {
      assert ProposalOk(c, x);
    }
  }

  lemma {:induction false} CleanFirstKeepsInv(c: Council, n: nat, now: nat)
    requires Inv(c) && CleanFirst(c, n, now).Some?
    ensures Inv(CleanFirst(c, n, now).value)
    ensures CleanFirst(c, n, now).value.nextId == c.nextId
  {
    if n > 0 {
      CleanFirstKeepsInv(c, n - 1, now);
      ForgetKeepsInv(CleanFirst(c, n - 1, now).value, n - 1);
    }
  }

  /** Changing one stored proposal consistently leaves the rest alone. */
  lemma OneProposalChanged(c: Council, d: Council, id: nat)
    requires Inv(c)
    requires d.owners == c.owners && d.threshold == c.threshold && d.nextId >= c.nextId && d.owners != []
    requires d.proposals.Keys == d.approvals.Keys == d.expiry.Keys == d.snapshots.Keys == c.proposals.Keys + {id}
    requires forall x :: x != id && x in c.proposals ==>
      && d.proposals[x] == c.proposals[x] && d.approvals[x] == c.approvals[x]
      && d.expiry[x] == c.expiry[x] && d.snapshots[x] == c.snapshots[x]
    requires ProposalOk(d, id)
    ensures Inv(d)
  {
    forall x | x in d.proposals ensures ProposalOk(d, x) {
      assert x != id ==> ProposalOk(c, x);
    }
  }

  lemma MarkKeepsInv(c: Council, id: nat, now: nat)
    requires Inv(c) && MarkExecuted(c, id, now).Some?
    ensures Inv(MarkExecuted(c, id, now).value)
  {
    assert ProposalOk(c, id);
    OneProposalChanged(c, MarkExecuted(c, id, now).value, id);
  }

  lemma DispatchKeepsInv(c: Council, a: Action, hostOk: bool)
    requires Inv(c) && c.owners != [] && Dispatch(c, a, hostOk).Some?
    ensures Inv(Dispatch(c, a, hostOk).value)
  {
    SameProposalsStayOk(c, Dispatch(c, a, hostOk).value);
  }

  lemma CreateKeepsInv(c: Council, who: Address, a: Action, now: nat)
    requires Inv(c) && Create(c, who, a, now).Some?
    ensures Inv(Create(c, who, a, now).value)
  {
    var next := Create(c, who, a, now).value;
    assert ProposalOk(next, c.nextId);
    OneProposalChanged(c, next, c.nextId);
  }

  lemma ApproveKeepsInv(c: Council, who: Address, id: nat, now: nat)
    requires Inv(c) && Approve(c, who, id, now).Some?
    ensures Inv(Approve(c, who, id, now).value)
  {
    assert ProposalOk(c, id);
    OneProposalChanged(c, Approve(c, who, id, now).value, id);
  }

  lemma UnapproveKeepsInv(c: Council, who: Address, id: nat, now: nat)
    requires Inv(c) && c.owners != [] && Unapprove(c, who, id, now).Some?
    ensures Inv(Unapprove(c, who, id, now).value)
  {
    assert ProposalOk(c, id);
    PositionFinds(c.ApprovalsOf(id), who);
    if who in c.ApprovalsOf(id) {
      SwapPopRemovesOne(c.ApprovalsOf(id), Position(c.ApprovalsOf(id), who).value);
      OneProposalChanged(c, Unapprove(c, who, id, now).value, id);
    }
  }

  lemma ApplyKeepsInv(c: Council, call: Call, now: nat)
    requires Inv(c) && Apply(c, call, now).Some?
    ensures Inv(Apply(c, call, now).value)
  {
    var next := Apply(c, call, now).value;
    match call
    case InitializeCall(_, _) => SameProposalsStayOk(c, next);
    case CreateCall(who, a) => CreateKeepsInv(c, who, a, now);
    case ApproveCall(who, id) => ApproveKeepsInv(c, who, id, now);
    case UnapproveCall(who, id) => UnapproveKeepsInv(c, who, id, now);
    case RejectCall(who, id) =>
      assert ProposalOk(c, id);
      OneProposalChanged(c, next, id);
    case ExecuteCall(who, id, hostOk) =>
      MarkKeepsInv(c, id, now);
      DispatchKeepsInv(MarkExecuted(c, id, now).value, c.proposals[id].action, hostOk);
    case CleanupCall(limit) => CleanFirstKeepsInv(c, Min(limit, c.nextId), now);
    case SetGraceCall(_) => SameProposalsStayOk(c, next);
  }

  /** Going from `c` to `d`, the rules frozen with proposal `id` are kept, and a decided
      proposal does not become pending again. */
  ghost predicate RulesKept(c: Council, d: Council, id: nat) {
    id in d.proposals ==>
      && id in c.proposals
      && Lookup(d.snapshots, id) == Lookup(c.snapshots, id)
      && Lookup(d.expiry, id) == Lookup(c.expiry, id)
      && d.proposals[id].action == c.proposals[id].action
      && (c.proposals[id].status != Pending ==> d.proposals[id].status != Pending)
  }

  /** Whatever happens to a council, a proposal id is never reused and the rules frozen with
      it never change; only its approvals and status may. */
  lemma RulesAreFrozen(c: Council, call: Call, now: nat, id: nat)
    requires Apply(c, call, now).Some? && id < c.nextId
    ensures id < Apply(c, call, now).value.nextId && RulesKept(c, Apply(c, call, now).value, id)
  {
    match call
    case CleanupCall(limit) => CleanFirstOnlyForgets(c, Min(limit, c.nextId), now);
    case ExecuteCall(who, x, hostOk) =>
      var marked := MarkExecuted(c, x, now).value;
      assert RulesKept(c, marked, id);
    case _ =>
  }

  lemma {:induction false} CleanFirstOnlyForgets(c: Council, n: nat, now: nat)
    requires CleanFirst(c, n, now).Some?
    ensures
      var d := CleanFirst(c, n, now).value;
      && d.owners == c.owners && d.threshold == c.threshold && d.nextId == c.nextId && d.grace == c.grace
      && (forall id: nat :: RulesKept(c, d, id))
      && (forall id :: id in d.proposals ==> id in c.proposals && d.proposals[id] == c.proposals[id])
  {
    if n > 0 {
      CleanFirstOnlyForgets(c, n - 1, now);
      var d, e := CleanFirst(c, n - 1, now).value, CleanFirst(c, n, now).value;
      forall id: nat ensures RulesKept(c, e, id) {
        assert RulesKept(c, d, id) && RulesKept(d, e, id);
      }
    }
  }

  /* ---------- When the operations commit ---------- */

  /** Exactly when a proposal can be created, and what it starts with. */
  lemma CreateCommitsIff(c: Council, who: Address, a: Action, now: nat)
    ensures Create(c, who, a, now).Some? <==>
              && who in c.owners
              && (a.ChangeThreshold? ==> c.lastQuorumChange + PROPOSAL_COOLDOWN_LEDGERS <= now)
              && c.nextId < U64_MAX
              && now <= U32_MAX - DEFAULT_PROPOSAL_EXPIRY
    ensures Create(c, who, a, now).Some? ==>
              var d := Create(c, who, a, now).value;
              && d.nextId == c.nextId + 1
              && d.proposals == c.proposals[c.nextId := Proposal(c.nextId, a, who, Pending, now)]
              && d.ApprovalsOf(c.nextId) == [who]
  {
  }

  /** A stored proposal is open for votes and execution exactly while it is undecided and its
      lifetime since creation has not passed. */
  lemma PendingIff(c: Council, id: nat, now: nat)
    requires Inv(c) && id in c.proposals
    ensures c.IsPending(id, now) <==>
              c.proposals[id].status == Pending && now <= c.proposals[id].createdAt + DEFAULT_PROPOSAL_EXPIRY
  {
    assert ProposalOk(c, id);
  }

  /** Exactly who can approve, when, and what that adds. */
  lemma ApproveCommitsIff(c: Council, who: Address, id: nat, now: nat)
    requires Inv(c)
    ensures Approve(c, who, id, now).Some? <==>
              && id in c.proposals && c.proposals[id].status == Pending
              && now <= c.proposals[id].createdAt + DEFAULT_PROPOSAL_EXPIRY
              && who in c.owners && who in c.snapshots[id].owners
              && who !in c.ApprovalsOf(id)
    ensures Approve(c, who, id, now).Some? ==>
              Elements(Approve(c, who, id, now).value.ApprovalsOf(id)) == Elements(c.ApprovalsOf(id)) + {who}
  {
    if id in c.proposals {
      assert ProposalOk(c, id);
    }
  }

  /** Withdrawing takes back that approval and no other, and may be repeated. */
  lemma UnapproveEffect(c: Council, who: Address, id: nat, now: nat)
    requires Inv(c)
    ensures Unapprove(c, who, id, now).Some? <==>
              && id in c.proposals && c.proposals[id].status == Pending
              && now <= c.proposals[id].createdAt + DEFAULT_PROPOSAL_EXPIRY
    ensures Unapprove(c, who, id, now).Some? ==>
              var d := Unapprove(c, who, id, now).value;
              && Elements(d.ApprovalsOf(id)) == Elements(c.ApprovalsOf(id)) - {who}
              && (forall x :: x != id ==> d.ApprovalsOf(x) == c.ApprovalsOf(x))
              && d.proposals == c.proposals
  {
    if id in c.proposals {
      assert ProposalOk(c, id);
      PositionFinds(c.ApprovalsOf(id), who);
      match Position(c.ApprovalsOf(id), who)
      case None =>
      case Some(i) => SwapPopRemovesOne(c.ApprovalsOf(id), i);
    }
  }

  lemma RejectCommitsIff(c: Council, who: Address, id: nat)
    ensures Reject(c, who, id).Some? <==> who in c.owners && id in c.proposals
  {
  }

  /** The forecast names the true counts and the reason of a refusal. */
  lemma PreviewReports(c: Council, id: nat, now: nat)
    requires Inv(c) && id in c.proposals
    ensures
      var p := Preview(c, id, now);
      && p.approvals == |Elements(c.ApprovalsOf(id))| && p.required == c.snapshots[id].threshold
      && (p.refusal == Some(HasExpired) <==> now > c.proposals[id].createdAt + DEFAULT_PROPOSAL_EXPIRY)
      && (p.refusal == Some(NotPending) <==>
            now <= c.proposals[id].createdAt + DEFAULT_PROPOSAL_EXPIRY && c.proposals[id].status != Pending)
      && (p.refusal == Some(NotApproved) ==> p.approvals < p.required)
      && p.predicted == (match p.refusal
                         case None => Executed
                         case Some(HasExpired) => Expired
                         case Some(_) => c.proposals[id].status)
  {
    CountIsVotesUnderSnapshot(c, id);
    PendingIff(c, id, now);
    assert ProposalOk(c, id);
  }

  /** A proposal whose lifetime and the grace after it have passed. */
  predicate Stale(c: Council, id: nat, now: nat) {
    id in c.proposals && now > c.proposals[id].createdAt + DEFAULT_PROPOSAL_EXPIRY + c.grace
  }

  lemma CleanOneEffect(c: Council, id: nat, now: nat)
    requires Inv(c)
    ensures CleanOne(c, id, now).Some? <==>
              (id in c.proposals ==> c.proposals[id].createdAt + DEFAULT_PROPOSAL_EXPIRY + c.grace <= U32_MAX)
    ensures CleanOne(c, id, now).Some? ==> CleanOne(c, id, now).value == if Stale(c, id, now) then Forget(c, id) else c
  {
    if id in c.proposals {
      assert ProposalOk(c, id);
    }
  }

  ghost predicate CleanedTo(c: Council, d: Council, n: nat, now: nat) {
    && Inv(d) && d.grace == c.grace
    && (forall id :: id in d.proposals <==> id in c.proposals && !(id < n && Stale(c, id, now)))
    && (forall id :: id in d.proposals ==> d.proposals[id] == c.proposals[id])
  }

  lemma CleanedOneMore(c: Council, d: Council, n: nat, now: nat)
    requires Inv(c) && CleanedTo(c, d, n, now)
    ensures CleanOne(d, n, now).Some? <==>
              (n in c.proposals ==> c.proposals[n].createdAt + DEFAULT_PROPOSAL_EXPIRY + c.grace <= U32_MAX)
    ensures CleanOne(d, n, now).Some? ==> CleanedTo(c, CleanOne(d, n, now).value, n + 1, now)
  {
    CleanOneEffect(d, n, now);
    assert n in d.proposals <==> n in c.proposals;
    if Stale(d, n, now) {
      ForgetKeepsInv(d, n);
    }
  }

  /** Nothing overflows among the first `n` ids. */
  ghost predicate TimesFit(c: Council, n: nat) {
    forall id :: id in c.proposals && id < n ==>
      c.proposals[id].createdAt + DEFAULT_PROPOSAL_EXPIRY + c.grace <= U32_MAX
  }

  lemma TimesFitOneMore(c: Council, n: nat)
    ensures TimesFit(c, n + 1) <==>
              && TimesFit(c, n)
              && (n in c.proposals ==> c.proposals[n].createdAt + DEFAULT_PROPOSAL_EXPIRY + c.grace <= U32_MAX)
  {
  }

  ghost predicate CleanedFirst(c: Council, result: Option<Council>, n: nat, now: nat) {
    && (result.Some? <==> TimesFit(c, n))
    && (result.Some? ==> CleanedTo(c, result.value, n, now))
  }

  lemma CleanedFirstNext(c: Council, before: Option<Council>, n: nat, now: nat)
    requires Inv(c) && before == CleanFirst(c, n, now) && CleanedFirst(c, before, n, now)
    ensures CleanedFirst(c, CleanFirst(c, n + 1, now), n + 1, now)
  {
    assert CleanFirst(c, n + 1, now) == if before.None? then None else CleanOne(before.value, n, now);
    TimesFitOneMore(c, n);
    if before.Some? {
      CleanedOneMore(c, before.value, n, now);
    }
  }

  lemma {:induction false} CleanFirstIsExact(c: Council, n: nat, now: nat)
    requires Inv(c)
    ensures CleanedFirst(c, CleanFirst(c, n, now), n, now)
  {
    if n > 0 {
      CleanFirstIsExact(c, n - 1, now);
      CleanedFirstNext(c, CleanFirst(c, n - 1, now), n - 1, now);
    }
  }

  /** A cleanup of the first `limit` ids removes exactly the proposals among them whose lifetime
      and grace have passed, decided or not, and keeps every other as it is. It aborts exactly
      when one of these times leaves the 32-bit range. */
  lemma CleanupIsExact(c: Council, limit: nat, now: nat)
    requires Inv(c)
    ensures Cleanup(c, limit, now).Some? <==>
              forall id :: id in c.proposals && id < limit ==>
                c.proposals[id].createdAt + DEFAULT_PROPOSAL_EXPIRY + c.grace <= U32_MAX
    ensures Cleanup(c, limit, now).Some? ==>
              var d := Cleanup(c, limit, now).value;
              && (forall id :: id in d.proposals <==> id in c.proposals && !(id < limit && Stale(c, id, now)))
              && (forall id :: id in d.proposals ==> d.proposals[id] == c.proposals[id])
  {
    CleanFirstIsExact(c, Min(limit, c.nextId), now);
    forall id | id in c.proposals ensures id < c.nextId {
      assert ProposalOk(c, id);
    }
  }

  /** A forecast of execution is exact: it is positive exactly when marking would succeed. */
  lemma PreviewIsExact(c: Council, id: nat, now: nat)
    ensures Preview(c, id, now).WouldExecute() <==> MarkExecuted(c, id, now).Some?
    ensures Preview(c, id, now).WouldExecute() ==>
              Preview(c, id, now).predicted == MarkExecuted(c, id, now).value.proposals[id].status
    ensures id in c.proposals && c.IsExpired(id, now) ==> MarkExecuted(c, id, now).None?
  {
  }

  /** Exactly which actions a council accepts. `hostOk` is the verdict of whoever else decides. */
  lemma DispatchCommitsIff(c: Council, a: Action, hostOk: bool)
    ensures Dispatch(c, a, hostOk).Some? <==>
              match a
              case AddOwner(x) => hostOk && x !in c.owners
              case RemoveOwner(x) => x in c.owners && |multiset(c.owners)[x := 0]| >= Max(c.threshold, 1)
              case ChangeThreshold(t) => 1 <= t <= |c.owners|
              case _ => hostOk
  {
    if a.RemoveOwner? {
      WithoutRemovesAll(c.owners, a.who);
      assert |Without(c.owners, a.who)| == |multiset(Without(c.owners, a.who))|;
      if a.who in c.owners && |c.owners| <= 1 {
        assert c.owners == [a.who];
        assert multiset([a.who])[a.who := 0] == multiset{};
      }
    }
  }

  /** The whole entry point: an owner calls, the forecast is positive, and the action itself
      is accepted by the council as it stands at that moment. */
  lemma ExecuteCommitsIff(c: Council, who: Address, id: nat, now: nat, hostOk: bool)
    ensures Execute(c, who, id, now, hostOk).Some? <==>
      && who in c.owners
      && Preview(c, id, now).WouldExecute()
      && Dispatch(c, c.proposals[id].action, hostOk).Some?
  {
    if id in c.proposals && MarkExecuted(c, id, now).Some? {
      var marked := MarkExecuted(c, id, now).value;
      assert marked.owners == c.owners && marked.threshold == c.threshold;
    }
  }

  /** In a reachable council the fallbacks for a missing snapshot are never taken: the count is
      the number of distinct approvers, all of them entitled by the frozen owner list. */
  lemma CountIsVotesUnderSnapshot(c: Council, id: nat)
    requires Inv(c) && id in c.proposals
    ensures id in c.snapshots
    ensures EffectiveThreshold(c, id) == c.snapshots[id].threshold
    ensures ApprovalCount(c, id) == |c.ApprovalsOf(id)| == |Elements(c.ApprovalsOf(id))|
    ensures Elements(c.ApprovalsOf(id)) <= Elements(c.snapshots[id].owners)
  {
    assert ProposalOk(c, id);
    AllCounted(c.approvals[id], c.snapshots[id].owners);
    DistinctSize(c.approvals[id]);
  }

  ghost predicate DispatchedOk(r: Run, d: Dispatched) {
    && d.id < r.council.nextId
    && (d.id in r.council.proposals ==> r.council.proposals[d.id].status in {Executed, Rejected})
    && Distinct(d.approvers)
    && (forall x :: x in d.approvers ==> x in d.snapshot.owners)
    && |d.approvers| >= d.snapshot.threshold >= 1
    && d.snapshot.actionTag == ActionTag(d.action)
  }

  ghost predicate RunInv(r: Run) {
    && Inv(r.council)
    && (forall i :: 0 <= i < |r.dispatched| ==> DispatchedOk(r, r.dispatched[i]))
    && (forall i, j :: 0 <= i < j < |r.dispatched| ==> r.dispatched[i].id != r.dispatched[j].id)
  }

  lemma OldDispatchesStayOk(r: Run, step: Step, d: Dispatched)
    requires Inv(r.council) && DispatchedOk(r, d)
    ensures DispatchedOk(Next(r, step), d)
  {
    if Apply(r.council, step.call, step.now).Some? {
      RulesAreFrozen(r.council, step.call, step.now, d.id);
      ApplyKeepsInv(r.council, step.call, step.now);
      var next := Next(r, step).council;
      assert d.id in next.proposals ==> ProposalOk(next, d.id);
    }
  }

  lemma NewDispatchIsOk(r: Run, who: Address, id: nat, now: nat, hostOk: bool)
    requires Inv(r.council) && Execute(r.council, who, id, now, hostOk).Some?
    ensures id in r.council.snapshots
    ensures r.council.proposals[id].status == Pending
    ensures DispatchedOk(Next(r, Step(ExecuteCall(who, id, hostOk), now)),
              Dispatched(id, r.council.proposals[id].action, r.council.ApprovalsOf(id), r.council.snapshots[id]))
  {
    assert ProposalOk(r.council, id);
    CountIsVotesUnderSnapshot(r.council, id);
  }

  lemma AllOldDispatchesStayOk(r: Run, step: Step)
    requires RunInv(r)
    ensures forall i :: 0 <= i < |r.dispatched| ==> DispatchedOk(Next(r, step), r.dispatched[i])
  {
    forall i | 0 <= i < |r.dispatched| ensures DispatchedOk(Next(r, step), r.dispatched[i]) {
      assert DispatchedOk(r, r.dispatched[i]);
      OldDispatchesStayOk(r, step, r.dispatched[i]);
    }
  }

  /** One more good dispatch with a fresh id keeps the list good. */
  lemma DispatchesGrow(next: Run, before: seq<Dispatched>, d: Dispatched)
    requires Inv(next.council) && next.dispatched == before + [d]
    requires forall i :: 0 <= i < |before| ==> DispatchedOk(next, before[i]) && before[i].id != d.id
    requires forall i, j :: 0 <= i < j < |before| ==> before[i].id != before[j].id
    requires DispatchedOk(next, d)
    ensures RunInv(next)
  {
    forall i | 0 <= i < |next.dispatched| ensures DispatchedOk(next, next.dispatched[i]) {
      if i < |before| {
        assert next.dispatched[i] == before[i];
      }
    }
  }

  lemma NextKeepsInv(r: Run, step: Step)
    requires RunInv(r)
    ensures RunInv(Next(r, step))
  {
    var next := Next(r, step);
    if Apply(r.council, step.call, step.now).Some? {
      ApplyKeepsInv(r.council, step.call, step.now);
      AllOldDispatchesStayOk(r, step);
      if step.call.ExecuteCall? {
        var id := step.call.id;
        NewDispatchIsOk(r, step.call.who, id, step.now, step.call.hostOk);
        forall i | 0 <= i < |r.dispatched| ensures r.dispatched[i].id != id {
          assert DispatchedOk(r, r.dispatched[i]);
        }
        DispatchesGrow(next, r.dispatched,
          Dispatched(id, r.council.proposals[id].action, r.council.ApprovalsOf(id), r.council.snapshots[id]));
      }
    }
  }

  /** Over every run, with owners, threshold, grace and the ledger sequence changing freely:
      approvals of a live proposal are distinct and entitled by its frozen rules, the live
      threshold stays reachable, and each id's action is dispatched at most once and only with
      at least the frozen threshold of distinct entitled approvers. */
  lemma {:induction false} EveryRunIsGoverned(steps: seq<Step>)
    ensures RunInv(After(Start, steps))
  {
    if steps != [] {
      EveryRunIsGoverned(steps[..|steps| - 1]);
      NextKeepsInv(After(Start, steps[..|steps| - 1]), steps[|steps| - 1]);
    }
  }

  /* ---------- What an executed action does ---------- */

  /** An executed proposal does what its action says: it appends the new owner, removes every
      occurrence of an owner, or sets the threshold. Every other action leaves both alone. */
  lemma ExecutedActionTakesEffect(c: Council, who: Address, id: nat, now: nat, hostOk: bool, d: Council)
    requires Execute(c, who, id, now, hostOk) == Some(d)
    ensures id in c.proposals && id in d.proposals && d.proposals[id] == c.proposals[id].(status := Executed)
    ensures
      match c.proposals[id].action
      case AddOwner(x) => d.owners == c.owners + [x] && d.threshold == c.threshold
      case RemoveOwner(x) => multiset(d.owners) == multiset(c.owners)[x := 0] && d.threshold == c.threshold
      case ChangeThreshold(t) => d.owners == c.owners && d.threshold == t
      case _ => d.owners == c.owners && d.threshold == c.threshold
  {
    if c.proposals[id].action.RemoveOwner? {
      WithoutRemovesAll(c.owners, c.proposals[id].action.who);
    }
  }

  datatype Roster = Roster(owners: seq<Address>, threshold: nat)

  function RosterOf(c: Council): Roster {
    Roster(c.owners, c.threshold)
  }

  function Enact(r: Roster, a: Action): Roster {
    match a
    case AddOwner(x) => r.(owners := r.owners + [x])
    case RemoveOwner(x) => r.(owners := Without(r.owners, x))
    case ChangeThreshold(t) => r.(threshold := t)
    case _ => r
  }

  /** The roster after the dispatched actions, in order. */
  function Enacted(r: Roster, ds: seq<Dispatched>): Roster {
    if ds == [] then r else Enact(Enacted(r, ds[..|ds| - 1]), ds[|ds| - 1].action)
  }

  lemma EnactedOnce(r: Roster, ds: seq<Dispatched>, d: Dispatched)
    ensures Enacted(r, ds + [d]) == Enact(Enacted(r, ds), d.action)
  {
    assert (ds + [d])[..|ds|] == ds;
  }

  /** One step changes the roster by what it dispatches; only an initialization of an empty
      council changes it otherwise. */
  lemma StepEnacts(r: Run, step: Step)
    requires Inv(r.council) && r.council.owners != []
    ensures r.dispatched <= Next(r, step).dispatched && |Next(r, step).dispatched| <= |r.dispatched| + 1
    ensures RosterOf(Next(r, step).council) ==
              Enacted(RosterOf(r.council), Next(r, step).dispatched[|r.dispatched|..])
  {
    var c, next := r.council, Next(r, step);
    if Apply(c, step.call, step.now).Some? {
      match step.call
      case ExecuteCall(who, id, hostOk) =>
        assert ProposalOk(c, id);
        var d := Dispatched(id, c.proposals[id].action, c.ApprovalsOf(id), c.snapshots[id]);
        assert next.dispatched == r.dispatched + [d];
        assert next.dispatched[|r.dispatched|..] == [] + [d];
        EnactedOnce(RosterOf(c), [], d);
      case CleanupCall(limit) => CleanFirstOnlyForgets(c, Min(limit, c.nextId), step.now);
      case _ =>
    }
  }

  lemma StaysInhabited(c: Council, call: Call, now: nat)
    requires c.owners != [] && Apply(c, call, now).Some?
    ensures Apply(c, call, now).value.owners != []
  {
    match call
    case CleanupCall(limit) => CleanFirstOnlyForgets(c, Min(limit, c.nextId), now);
    case _ =>
  }

  lemma {:induction false} EnactedInTwo(r: Roster, xs: seq<Dispatched>, ys: seq<Dispatched>)
    ensures Enacted(r, xs + ys) == Enacted(Enacted(r, xs), ys)
  {
    if ys == [] {
      assert xs + ys == xs;
    } else {
      assert (xs + ys)[..|xs + ys| - 1] == xs + ys[..|ys| - 1];
      EnactedInTwo(r, xs, ys[..|ys| - 1]);
    }
  }

  /** Over every run of an initialized council, the owner list and the threshold are those at its
      start, changed by the dispatched actions in their order and by nothing else. */
  lemma {:induction false} RosterIsEnacted(r: Run, steps: seq<Step>)
    requires Inv(r.council) && r.council.owners != []
    ensures
      var after := After(r, steps);
      && Inv(after.council) && after.council.owners != []
      && r.dispatched <= after.dispatched
      && RosterOf(after.council) == Enacted(RosterOf(r.council), after.dispatched[|r.dispatched|..])
  {
    if steps == [] {
      assert r.dispatched[|r.dispatched|..] == [];
    } else {
      var front, last := After(r, steps[..|steps| - 1]), steps[|steps| - 1];
      RosterIsEnacted(r, steps[..|steps| - 1]);
      if Apply(front.council, last.call, last.now).Some? {
        ApplyKeepsInv(front.council, last.call, last.now);
        StaysInhabited(front.council, last.call, last.now);
      }
      StepEnacts(front, last);
      var after, n := Next(front, last), |r.dispatched|;
      assert after.dispatched[n..] == front.dispatched[n..] + after.dispatched[|front.dispatched|..];
      EnactedInTwo(RosterOf(r.council), front.dispatched[n..], after.dispatched[|front.dispatched|..]);
    }
  }

  /** The step executes a change of the threshold. */
  predicate ChangesQuorum(r: Run, step: Step) {
    && step.call.ExecuteCall?
    && step.call.id in r.council.proposals
    && r.council.proposals[step.call.id].action.ChangeThreshold?
    && Apply(r.council, step.call, step.now).Some?
  }

  lemma QuorumChangeIsStamped(r: Run, step: Step)
    ensures Next(r, step).council.lastQuorumChange ==
              if ChangesQuorum(r, step) then step.now else r.council.lastQuorumChange
  {
    if Apply(r.council, step.call, step.now).Some? {
      match step.call
      case CleanupCall(limit) => CleanFirstKeepsStamp(r.council, Min(limit, r.council.nextId), step.now);
      case _ =>
    }
  }

  lemma {:induction false} CleanFirstKeepsStamp(c: Council, n: nat, now: nat)
    requires CleanFirst(c, n, now).Some?
    ensures CleanFirst(c, n, now).value.lastQuorumChange == c.lastQuorumChange
  {
    if n > 0 {
      CleanFirstKeepsStamp(c, n - 1, now);
    }
  }

  lemma {:induction false} StampStays(r: Run, steps: seq<Step>)
    requires forall i :: 0 <= i < |steps| ==> !ChangesQuorum(After(r, steps[..i]), steps[i])
    ensures After(r, steps).council.lastQuorumChange == r.council.lastQuorumChange
  {
    if steps != [] {
      var front := steps[..|steps| - 1];
      assert forall i :: 0 <= i < |front| ==> front[..i] == steps[..i] && front[i] == steps[i];
      StampStays(r, front);
      QuorumChangeIsStamped(After(r, front), steps[|steps| - 1]);
    }
  }

  /** After an executed threshold change, whatever else is called, the next proposal of one is
      refused until the cooldown has passed. */
  lemma CooldownIsObserved(r: Run, change: Step, steps: seq<Step>, who: Address, t: nat, now: nat)
    requires ChangesQuorum(r, change)
    requires forall i :: 0 <= i < |steps| ==> !ChangesQuorum(After(Next(r, change), steps[..i]), steps[i])
    requires now < change.now + PROPOSAL_COOLDOWN_LEDGERS
    ensures Create(After(Next(r, change), steps).council, who, ChangeThreshold(t), now).None?
  {
    QuorumChangeIsStamped(r, change);
    StampStays(Next(r, change), steps);
  }

  /** Starting from distinct owners, the owner list never gains a duplicate. */
  lemma OwnersStayDistinct(c: Council, call: Call, now: nat)
    requires Distinct(c.owners) && Apply(c, call, now).Some?
    requires call.InitializeCall? ==> Distinct(call.owners)
    ensures Distinct(Apply(c, call, now).value.owners)
  {
    match call
    case ExecuteCall(who, id, hostOk) =>
      if c.proposals[id].action.RemoveOwner? {
        WithoutKeepsOthers(c.owners, c.proposals[id].action.who);
      }
    case CleanupCall(limit) => CleanFirstOnlyForgets(c, Min(limit, c.nextId), now);
    case _ =>
  }

  /** Initialization accepts duplicates. If the frozen list has fewer distinct owners than the
      frozen threshold, the proposal can never be executed, whoever approves. */
  lemma TooFewDistinctOwnersDeadlock(c: Council, id: nat, now: nat)
    requires Inv(c) && id in c.proposals
    requires |Elements(c.snapshots[id].owners)| < c.snapshots[id].threshold
    ensures MarkExecuted(c, id, now).None?
  {
    CountIsVotesUnderSnapshot(c, id);
    SubsetSize(Elements(c.ApprovalsOf(id)), Elements(c.snapshots[id].owners));
  }

  /** Rejection is not guarded by status: an owner can turn an already executed proposal into
      a rejected one, although its action has taken effect. Only the record changes. */
  lemma ExecutedCanBecomeRejected(c: Council, who: Address, id: nat)
    requires Inv(c) && who in c.owners && id in c.proposals && c.proposals[id].status == Executed
    ensures Reject(c, who, id).Some?
    ensures Reject(c, who, id).value.proposals[id] == c.proposals[id].(status := Rejected)
    ensures Inv(Reject(c, who, id).value)
    ensures forall now, hostOk :: Execute(Reject(c, who, id).value, who, id, now, hostOk).None?
  {
    ApplyKeepsInv(c, RejectCall(who, id), 0);
  }

  /** What a committed call does to a decided proposal that stays stored: only a rejection of
      that proposal changes its status. */
  lemma DecidedStep(c: Council, call: Call, now: nat, id: nat)
    requires Apply(c, call, now).Some? && id in c.proposals && id < c.nextId
    requires c.proposals[id].status in {Executed, Rejected}
    requires id in Apply(c, call, now).value.proposals
    ensures Apply(c, call, now).value.proposals[id].status ==
              if call.RejectCall? && call.id == id then Rejected else c.proposals[id].status
  {
    match call
    case CleanupCall(limit) => CleanFirstOnlyForgets(c, Min(limit, c.nextId), now);
    case ExecuteCall(who, x, hostOk) =>
      var marked := MarkExecuted(c, x, now).value;
      assert x != id && marked.proposals[id] == c.proposals[id];
    case _ =>
  }

  /** Exactly which calls leave an executed proposal executed. */
  lemma ExecutedStaysIff(c: Council, call: Call, now: nat, id: nat)
    requires Inv(c) && Apply(c, call, now).Some?
    requires id in c.proposals && c.proposals[id].status == Executed && id in Apply(c, call, now).value.proposals
    ensures Apply(c, call, now).value.proposals[id].status == Executed <==> !(call.RejectCall? && call.id == id)
  {
    assert ProposalOk(c, id);
    DecidedStep(c, call, now, id);
  }

  /** Some call of the run committed a rejection of `id`. */
  predicate EverRejected(r: Run, steps: seq<Step>, id: nat) {
    steps != [] &&
    var front, last := steps[..|steps| - 1], steps[|steps| - 1];
    || EverRejected(r, front, id)
    || (last.call.RejectCall? && last.call.id == id && Apply(After(r, front).council, last.call, last.now).Some?)
  }

  /** Over any run: while its record is stored, an executed proposal reads as executed if and
      only if nobody has rejected it since. */
  lemma {:induction false} ExecutedUnlessRejected(r: Run, steps: seq<Step>, id: nat)
    requires Inv(r.council) && id in r.council.proposals && r.council.proposals[id].status == Executed
    ensures
      var c := After(r, steps).council;
      id in c.proposals ==> c.proposals[id].status == if EverRejected(r, steps, id) then Rejected else Executed
  {
    assert ProposalOk(r.council, id);
    if steps != [] {
      var front, last := steps[..|steps| - 1], steps[|steps| - 1];
      var c := After(r, front).council;
      ExecutedUnlessRejected(r, front, id);
      RulesHoldOverRuns(r, front, id);
      if Apply(c, last.call, last.now).Some? && id in Apply(c, last.call, last.now).value.proposals {
        RulesAreFrozen(c, last.call, last.now, id);
        DecidedStep(c, last.call, last.now, id);
      }
    }
  }

  /* ---------- Frozen rules and distinct owners over runs ---------- */

  lemma RulesKeptTwice(c: Council, d: Council, e: Council, id: nat)
    requires RulesKept(c, d, id) && RulesKept(d, e, id)
    ensures RulesKept(c, e, id)
  {
  }

  /** Over any run an id is never reused and the rules frozen with it never change. */
  lemma {:induction false} RulesHoldOverRuns(r: Run, steps: seq<Step>, id: nat)
    requires id < r.council.nextId
    ensures id < After(r, steps).council.nextId && RulesKept(r.council, After(r, steps).council, id)
  {
    if steps != [] {
      var front, last := steps[..|steps| - 1], steps[|steps| - 1];
      var c := After(r, front).council;
      RulesHoldOverRuns(r, front, id);
      if Apply(c, last.call, last.now).Some? {
        RulesAreFrozen(c, last.call, last.now, id);
        RulesKeptTwice(r.council, c, After(r, steps).council, id);
      }
    }
  }

  /** Whatever was dispatched for `id` was this action, under these rules. */
  ghost predicate DispatchedUnder(r: Run, id: nat, a: Action, s: Snapshot) {
    forall i :: 0 <= i < |r.dispatched| && r.dispatched[i].id == id ==>
      r.dispatched[i].action == a && r.dispatched[i].snapshot == s
  }

  lemma NextStaysUnder(r: Run, step: Step, id: nat, a: Action, s: Snapshot)
    requires DispatchedUnder(r, id, a, s)
    requires id in r.council.proposals ==>
               r.council.proposals[id].action == a && Lookup(r.council.snapshots, id) == Some(s)
    ensures DispatchedUnder(Next(r, step), id, a, s)
  {
  }

  /** The rules a proposal is dispatched under are those of the ledger that created it: the
      owners and the threshold of that moment, and the action it was created for, however
      owners and threshold changed in between. */
  lemma {:induction false} DispatchUsesCreationRules(r: Run, create: Step, steps: seq<Step>)
    requires RunInv(r) && create.call.CreateCall? && Apply(r.council, create.call, create.now).Some?
    ensures
      var c := r.council;
      DispatchedUnder(After(Next(r, create), steps), c.nextId, create.call.action,
        Snapshot(c.owners, c.threshold, |c.owners|, create.now, ActionTag(create.call.action)))
  {
    var c, created := r.council, Next(r, create);
    var a := create.call.action;
    var s := Snapshot(c.owners, c.threshold, |c.owners|, create.now, ActionTag(a));
    if steps == [] {
      forall i | 0 <= i < |created.dispatched| ensures created.dispatched[i].id != c.nextId {
        assert DispatchedOk(r, r.dispatched[i]);
      }
    } else {
      var front := After(created, steps[..|steps| - 1]);
      DispatchUsesCreationRules(r, create, steps[..|steps| - 1]);
      RulesHoldOverRuns(created, steps[..|steps| - 1], c.nextId);
      assert created.council.proposals[c.nextId].action == a && Lookup(created.council.snapshots, c.nextId) == Some(s);
      NextStaysUnder(front, steps[|steps| - 1], c.nextId, a, s);
    }
  }

  /** Every initialization of the run lists each owner once. */
  ghost predicate InitializedDistinctly(steps: seq<Step>) {
    forall i :: 0 <= i < |steps| && steps[i].call.InitializeCall? ==> Distinct(steps[i].call.owners)
  }

  /** Then no run ever has a duplicate owner. */
  lemma {:induction false} EveryRunHasDistinctOwners(steps: seq<Step>)
    requires InitializedDistinctly(steps)
    ensures Distinct(After(Start, steps).council.owners)
  {
    if steps != [] {
      var front, last := steps[..|steps| - 1], steps[|steps| - 1];
      EveryRunHasDistinctOwners(front);
      if Apply(After(Start, front).council, last.call, last.now).Some? {
        OwnersStayDistinct(After(Start, front).council, last.call, last.now);
      }
    }
  }

  /* ---------- When a proposal can be executed at all ---------- */

  /** The council after `voters` tried to approve in turn, all at one ledger. */
  function Votes(c: Council, id: nat, voters: seq<Address>, now: nat): Council {
    if voters == [] then c
    else
      var before := Votes(c, id, voters[..|voters| - 1], now);
      Approve(before, voters[|voters| - 1], id, now).GetOr(before)
  }

  lemma {:induction false} VotesOnlyApprove(c: Council, id: nat, voters: seq<Address>, now: nat)
    requires Inv(c)
    ensures
      var d := Votes(c, id, voters, now);
      && Inv(d) && d.snapshots == c.snapshots && d.proposals == c.proposals
      && d.expiry == c.expiry && d.owners == c.owners
  {
    if voters != [] {
      var before := Votes(c, id, voters[..|voters| - 1], now);
      VotesOnlyApprove(c, id, voters[..|voters| - 1], now);
      if Approve(before, voters[|voters| - 1], id, now).Some? {
        ApproveKeepsInv(before, voters[|voters| - 1], id, now);
      }
    }
  }

  lemma OneMoreVote(c: Council, id: nat, voters: seq<Address>, now: nat, x: Address)
    requires
      var before := Votes(c, id, voters, now);
      && before.IsPending(id, now) && id in before.snapshots && x in before.snapshots[id].owners
      && x in before.owners && x !in Elements(before.ApprovalsOf(id))
    ensures Elements(Votes(c, id, voters + [x], now).ApprovalsOf(id)) ==
              Elements(Votes(c, id, voters, now).ApprovalsOf(id)) + {x}
  {
    var before := Votes(c, id, voters, now);
    assert (voters + [x])[..|voters|] == voters;
    assert Votes(c, id, voters + [x], now).ApprovalsOf(id) == before.ApprovalsOf(id) + [x];
  }

  /** The owners that may vote on a proposal now: frozen for it and still in office. */
  function Voters(c: Council, id: nat): set<Address>
    requires id in c.snapshots
  {
    Elements(c.owners) * Elements(c.snapshots[id].owners)
  }

  /** Voters who have not voted yet can all do so, one after the other. */
  lemma {:induction false} MissingOwnersCanVote(c: Council, id: nat, now: nat, missing: set<Address>)
    returns (voters: seq<Address>)
    requires Inv(c) && c.IsPending(id, now)
    requires missing <= Voters(c, id) && missing !! Elements(c.ApprovalsOf(id))
    ensures Elements(Votes(c, id, voters, now).ApprovalsOf(id)) == Elements(c.ApprovalsOf(id)) + missing
    decreases |missing|
  {
    if missing == {} {
      voters := [];
    } else {
      var x :| x in missing;
      voters := MissingOwnersCanVote(c, id, now, missing - {x});
      VotesOnlyApprove(c, id, voters, now);
      OneMoreVote(c, id, voters, now, x);
      voters := voters + [x];
    }
  }

  /** Nobody else can. */
  lemma {:induction false} OnlyVotersVote(c: Council, id: nat, voters: seq<Address>, now: nat)
    requires Inv(c) && id in c.proposals
    ensures Elements(Votes(c, id, voters, now).ApprovalsOf(id)) <= Elements(c.ApprovalsOf(id)) + Voters(c, id)
  {
    if voters != [] {
      var front, x := voters[..|voters| - 1], voters[|voters| - 1];
      OnlyVotersVote(c, id, front, now);
      VotesOnlyApprove(c, id, front, now);
      var before := Votes(c, id, front, now);
      if Approve(before, x, id, now).Some? {
        assert Votes(c, id, voters, now).ApprovalsOf(id) == before.ApprovalsOf(id) + [x];
        assert x in Voters(c, id);
      }
    }
  }

  /** Some approvals, at some ledger, would let the proposal be executed. */
  ghost predicate CanPass(c: Council, id: nat) {
    exists voters: seq<Address>, now: nat :: MarkExecuted(Votes(c, id, voters, now), id, now).Some?
  }

  /** Everybody who approved or still may. */
  function Support(c: Council, id: nat): set<Address>
    requires id in c.snapshots
  {
    Elements(c.ApprovalsOf(id)) + Voters(c, id)
  }

  lemma EnoughSupportPasses(c: Council, id: nat)
    requires Inv(c) && id in c.proposals && c.proposals[id].status == Pending
    requires |Support(c, id)| >= c.snapshots[id].threshold
    ensures CanPass(c, id)
  {
    assert c.IsPending(id, 0);
    var missing := Voters(c, id) - Elements(c.ApprovalsOf(id));
    var voters := MissingOwnersCanVote(c, id, 0, missing);
    VotesOnlyApprove(c, id, voters, 0);
    var voted := Votes(c, id, voters, 0);
    assert Elements(voted.ApprovalsOf(id)) == Support(c, id);
    CountIsVotesUnderSnapshot(voted, id);
    assert MarkExecuted(voted, id, 0).Some?;
  }

  lemma PassingNeedsSupport(c: Council, id: nat, voters: seq<Address>, now: nat)
    requires Inv(c) && id in c.proposals && MarkExecuted(Votes(c, id, voters, now), id, now).Some?
    ensures c.proposals[id].status == Pending && |Support(c, id)| >= c.snapshots[id].threshold
  {
    VotesOnlyApprove(c, id, voters, now);
    OnlyVotersVote(c, id, voters, now);
    var voted := Votes(c, id, voters, now);
    CountIsVotesUnderSnapshot(voted, id);
    SubsetSize(Elements(voted.ApprovalsOf(id)), Support(c, id));
  }

  /** Exactly when a stored proposal can still pass, whatever happened to the owners since it
      was created: it is undecided, and those who approved it, together with its frozen owners
      who are still in office, reach the frozen threshold. */
  lemma CanPassIff(c: Council, id: nat)
    requires Inv(c) && id in c.proposals
    ensures id in c.snapshots
    ensures CanPass(c, id) <==>
              && c.proposals[id].status == Pending
              && |Elements(c.ApprovalsOf(id)) + Elements(c.owners) * Elements(c.snapshots[id].owners)|
                   >= c.snapshots[id].threshold
  {
    if c.proposals[id].status == Pending && |Support(c, id)| >= c.snapshots[id].threshold {
      EnoughSupportPasses(c, id);
    }
    if CanPass(c, id) {
      var voters: seq<Address>, now: nat :| MarkExecuted(Votes(c, id, voters, now), id, now).Some?;
      PassingNeedsSupport(c, id, voters, now);
    }
  }

  /** A new proposal is supported by every owner. */
  lemma NewSupport(c: Council, who: Address, a: Action, now: nat, d: Council)
    requires Create(c, who, a, now) == Some(d)
    ensures c.nextId in d.proposals && d.proposals[c.nextId].status == Pending
    ensures c.nextId in d.snapshots && d.snapshots[c.nextId].threshold == c.threshold
    ensures Support(d, c.nextId) == Elements(c.owners)
  {
    assert Elements([who]) <= Elements(c.owners);
    assert Voters(d, c.nextId) == Elements(c.owners);
  }

  /** Exactly when a new proposal can ever pass: the distinct owners must reach the threshold.
      Initialization does not check this; it compares the threshold with the length of the list. */
  lemma NewProposalCanPassIff(c: Council, who: Address, a: Action, now: nat, d: Council)
    requires Inv(c) && Create(c, who, a, now) == Some(d)
    ensures CanPass(d, c.nextId) <==> |Elements(c.owners)| >= c.threshold
  {
    CreateKeepsInv(c, who, a, now);
    NewSupport(c, who, a, now, d);
    CanPassIff(d, c.nextId);
  }

  /** Nor does any run dispatch under rules whose distinct owners cannot reach the threshold. */
  lemma DispatchNeedsEnoughOwners(steps: seq<Step>, i: nat)
    requires i < |After(Start, steps).dispatched|
    ensures
      var s := After(Start, steps).dispatched[i].snapshot;
      |Elements(s.owners)| >= s.threshold
  {
    EveryRunIsGoverned(steps);
    var r := After(Start, steps);
    var d := r.dispatched[i];
    assert DispatchedOk(r, r.dispatched[i]);
    DistinctSize(d.approvers);
    SubsetSize(Elements(d.approvers), Elements(d.snapshot.owners));
  }

  /** An input that initialization accepts and that no proposal survives: one owner listed
      twice with a threshold of two. */
  lemma OneOwnerListedTwiceDeadlocks(owner: Address, a: Action, now: nat)
    requires now + DEFAULT_PROPOSAL_EXPIRY <= U32_MAX && CooldownOver(Empty, a, now)
    ensures
      var c := Initialize(Empty, [owner, owner], 2);
      && c.Some?
      && Create(c.value, owner, a, now).Some?
      && !CanPass(Create(c.value, owner, a, now).value, 0)
  {
    var c := Initialize(Empty, [owner, owner], 2).value;
    SameProposalsStayOk(Empty, c);
    assert Elements([owner, owner]) == {owner};
    NewProposalCanPassIff(c, owner, a, now, Create(c, owner, a, now).value);
  }

  /* ---------- The contract's storage and entry points ---------- */

  class MultisigContract {
    var owners: seq<Address>
    var threshold: nat
    var nextId: nat
    var proposals: map<nat, Proposal>
    var approvals: map<nat, seq<Address>>
    var expiry: map<nat, nat>
    var snapshots: map<nat, Snapshot>
    var lastQuorumChange: nat
    var grace: nat

    function Model(): Council
      reads this
    {
      Council(owners, threshold, nextId, proposals, approvals, expiry, snapshots, lastQuorumChange, grace)
    }

    constructor ()
      ensures Model() == Empty
    {
      owners, threshold, nextId := [], 1, 0;
      proposals, approvals, expiry, snapshots := map[], map[], map[], map[];
      lastQuorumChange, grace := 0, DEFAULT_PROPOSAL_EXPIRY_GRACE;
    }

    method InitializeMultisig(list: seq<Address>, required: nat) returns (ok: bool)
      modifies this
      ensures Tx(ok, Initialize(old(Model()), list, required), old(Model()), Model())
    {
      ok := required > 0 && required <= |list| && owners == [];
      if ok {
        owners, threshold := list, required;
      }
    }

    method CreateProposal(who: Address, a: Action, now: nat) returns (ok: bool, id: nat)
      modifies this
      ensures Tx(ok, Create(old(Model()), who, a, now), old(Model()), Model())
      ensures id == old(nextId)
    {
      id := nextId;
      if who !in owners {
        return false, id;
      }
      if a.ChangeThreshold? && now < lastQuorumChange + PROPOSAL_COOLDOWN_LEDGERS {
        return false, id;
      }
      if id >= U64_MAX || now + DEFAULT_PROPOSAL_EXPIRY > U32_MAX {
        return false, id;
      }
      nextId := id + 1;
      snapshots := snapshots[id := Snapshot(owners, threshold, |owners|, now, ActionTag(a))];
      proposals := proposals[id := Proposal(id, a, who, Pending, now)];
      expiry := expiry[id := now + DEFAULT_PROPOSAL_EXPIRY];
      approvals := approvals[id := [who]];
      ok := true;
    }

    method ApproveProposal(who: Address, id: nat, now: nat) returns (ok: bool)
      modifies this`approvals
      ensures Tx(ok, Approve(old(Model()), who, id, now), old(Model()), Model())
    {
      if id !in proposals || (id in expiry && now > expiry[id]) || proposals[id].status != Pending {
        return false;
      }
      if id in snapshots && who !in snapshots[id].owners {
        return false;
      }
      var given := Get(approvals, id, []);
      if who !in owners || who in given {
        return false;
      }
      approvals := approvals[id := given + [who]];
      return true;
    }

    /** The first position of `who`, found by a scan from the front. */
    method FindApproval(xs: seq<Address>, who: Address) returns (at: Option<nat>)
      ensures at == Position(xs, who)
    {
      for i := 0 to |xs|
        invariant Position(xs[..i], who) == None
      {
        assert xs[..i + 1][..i] == xs[..i];
        if xs[i] == who {
          FirstPositionStays(xs, who, i + 1);
          return Some(i);
        }
      }
      assert xs[..|xs|] == xs;
      return None;
    }

    method RevokeApproval(who: Address, id: nat, now: nat) returns (ok: bool)
      modifies this`approvals
      ensures Tx(ok, Unapprove(old(Model()), who, id, now), old(Model()), Model())
    {
      if id !in proposals || (id in expiry && now > expiry[id]) || proposals[id].status != Pending {
        return false;
      }
      var given := Get(approvals, id, []);
      PositionFinds(given, who);
      var at := FindApproval(given, who);
      if at.Some? {
        var last := |given| - 1;
        var rest := given;
        if at.value != last {
          rest := rest[at.value := given[last]];
        }
        rest := rest[..last];
        assert rest == SwapPop(given, at.value);
        approvals := approvals[id := rest];
      }
      return true;
    }

    method RejectProposal(who: Address, id: nat) returns (ok: bool)
      modifies this`proposals
      ensures Tx(ok, Reject(old(Model()), who, id), old(Model()), Model())
    {
      ok := who in owners && id in proposals;
      if ok {
        proposals := proposals[id := proposals[id].(status := Rejected)];
      }
    }

    method GetApprovalCount(id: nat) returns (count: nat)
      ensures count == ApprovalCount(Model(), id)
    {
      var given := Get(approvals, id, []);
      if id !in snapshots {
        return |given|;
      }
      var entitled := snapshots[id].owners;
      count := 0;
      for i := 0 to |given|
        invariant count == CountIn(given[..i], entitled)
      {
        assert given[..i + 1][..i] == given[..i];
        if given[i] in entitled {
          count := count + 1;
        }
      }
      assert given[..|given|] == given;
    }

    method MarkProposalExecuted(id: nat, now: nat) returns (ok: bool)
      modifies this`proposals, this`lastQuorumChange
      ensures Tx(ok, MarkExecuted(old(Model()), id, now), old(Model()), Model())
    {
      if id !in proposals || (id in expiry && now > expiry[id]) || proposals[id].status != Pending {
        return false;
      }
      var count := GetApprovalCount(id);
      var required := if id in snapshots then snapshots[id].threshold else threshold;
      if count < required {
        return false;
      }
      var p := proposals[id];
      if p.action.ChangeThreshold? {
        lastQuorumChange := now;
      }
      proposals := proposals[id := p.(status := Executed)];
      return true;
    }

    method PreviewProposal(id: nat, now: nat) returns (e: Effect)
      ensures e == Preview(Model(), id, now)
    {
      if id !in proposals {
        return Effect(Some(NotFound), Pending, 0, 0);
      }
      var count := GetApprovalCount(id);
      var required := if id in snapshots then snapshots[id].threshold else threshold;
      if id in expiry && now > expiry[id] {
        return Effect(Some(HasExpired), Expired, count, required);
      }
      if proposals[id].status != Pending {
        return Effect(Some(NotPending), proposals[id].status, count, required);
      }
      if count < required {
        return Effect(Some(NotApproved), Pending, count, required);
      }
      return Effect(None, Executed, count, required);
    }

    method RemoveOwnerFrom(list: seq<Address>, who: Address) returns (rest: seq<Address>)
      ensures rest == Without(list, who)
    {
      rest := [];
      for i := 0 to |list|
        invariant rest == Without(list[..i], who)
      {
        assert list[..i + 1][..i] == list[..i];
        if list[i] != who {
          rest := rest + [list[i]];
        }
      }
      assert list[..|list|] == list;
    }

    method DispatchAction(a: Action, hostOk: bool) returns (ok: bool)
      modifies this`owners, this`threshold
      ensures Tx(ok, Dispatch(old(Model()), a, hostOk), old(Model()), Model())
    {
      match a
      case AddOwner(who) =>
        ok := hostOk && who !in owners;
        if ok {
          owners := owners + [who];
        }
      case RemoveOwner(who) =>
        if who !in owners || |owners| <= 1 {
          return false;
        }
        var rest := RemoveOwnerFrom(owners, who);
        ok := |rest| >= threshold && rest != [];
        if ok {
          owners := rest;
        }
      case ChangeThreshold(t) =>
        ok := t > 0 && t <= |owners|;
        if ok {
          threshold := t;
        }
      case _ =>
        ok := hostOk;
    }

    method ExecuteProposal(who: Address, id: nat, now: nat, hostOk: bool) returns (ok: bool)
      modifies this
      ensures Tx(ok, Execute(old(Model()), who, id, now, hostOk), old(Model()), Model())
    {
      if who !in owners || id !in proposals {
        return false;
      }
      var a, proposals0, lastQuorumChange0 := proposals[id].action, proposals, lastQuorumChange;
      ok := MarkProposalExecuted(id, now);
      if ok {
        ok := DispatchAction(a, hostOk);
        if !ok {
          proposals, lastQuorumChange := proposals0, lastQuorumChange0;
        }
      }
    }

    method SetProposalExpiryGrace(ledgers: nat)
      modifies this`grace
      ensures Model() == old(Model()).(grace := ledgers)
    {
      grace := ledgers;
    }

    method CleanupOne(id: nat, now: nat) returns (ok: bool, cleaned: nat)
      modifies this`proposals, this`approvals, this`expiry, this`snapshots
      ensures Tx(ok, CleanOne(old(Model()), id, now), old(Model()), Model())
      ensures |proposals| == old(|proposals|) - cleaned
    {
      if id in expiry {
        if expiry[id] + grace > U32_MAX {
          return false, 0;
        }
        if now > expiry[id] + grace && id in proposals {
          assert (proposals - {id}).Keys == proposals.Keys - {id};
          proposals := proposals - {id};
          approvals := approvals - {id};
          expiry := expiry - {id};
          snapshots := snapshots - {id};
          return true, 1;
        }
      }
      return true, 0;
    }

    method CleanupExpiredProposals(limit: nat, now: nat) returns (ok: bool, cleaned: nat)
      modifies this
      ensures Tx(ok, Cleanup(old(Model()), limit, now), old(Model()), Model())
      ensures ok ==> cleaned == |old(proposals)| - |proposals|
    {
      ghost var before := Model();
      var proposals0, approvals0, expiry0, snapshots0 := proposals, approvals, expiry, snapshots;
      var max := if limit < nextId then limit else nextId;
      cleaned := 0;
      for id := 0 to max
        invariant owners == before.owners && threshold == before.threshold && nextId == before.nextId
        invariant lastQuorumChange == before.lastQuorumChange && grace == before.grace
        invariant CleanFirst(before, id, now) == Some(Model())
        invariant cleaned == |before.proposals| - |proposals|
      {
        var done, one := CleanupOne(id, now);
        if !done {
          CleanFirstAbortsForGood(before, id + 1, max, now);
          proposals, approvals, expiry, snapshots := proposals0, approvals0, expiry0, snapshots0;
          return false, 0;
        }
        cleaned := cleaned + one;
      }
      ok := true;
    }
  }

  lemma {:induction false} FirstPositionStays(xs: seq<Address>, who: Address, n: nat)
    requires n <= |xs| && Position(xs[..n], who).Some?
    ensures Position(xs, who) == Position(xs[..n], who)
    decreases |xs|
  {
    if n == |xs| {
      assert xs[..n] == xs;
    } else {
      assert xs[..|xs| - 1][..n] == xs[..n];
      FirstPositionStays(xs[..|xs| - 1], who, n);
    }
  }

  lemma {:induction false} CleanFirstAbortsForGood(c: Council, n: nat, m: nat, now: nat)
    requires n <= m && CleanFirst(c, n, now).None?
    ensures CleanFirst(c, m, now).None?
  {
    if n < m {
      CleanFirstAbortsForGood(c, n, m - 1, now);
    }
  }
}
