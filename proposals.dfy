/**
  The proposals canister: a keyed store of proposals and the voting state
  machine on top of it (create, edit, end, vote, count).

  The identity of the caller (`ic_cdk::caller()` in the canister) is an
  explicit argument of every operation, of an opaque type `P` that supports
  only equality.
 */
module Proposals {
  import opened Wrappers

  datatype Choice = Approve | Reject | Pass

  /** Every error kind the canister declares; `InvalidChoice` is never produced. */
  datatype VoteError =
    | AlreadyVoted
    | ProposalIsNotActive
    | InvalidChoice
    | NoSuchProposal
    | AccessRejected
    | UpdateError

  datatype Proposal<P> = Proposal(
    description: string,
    approve: nat,
    reject: nat,
    pass: nat,
    isActive: bool,
    voted: seq<P>,
    owner: P)

  datatype ProposalPayload = ProposalPayload(description: string, isActive: bool)

  /** The stable B-tree map from proposal id to proposal. */
  type Store<P> = map<nat, Proposal<P>>

  /** `Result<(), VoteError>`, what edit, end and vote return. */
  type Outcome = Result<(), VoteError>

  // ---------------------------------------------------------------------------
  // Invariants of a stored proposal
  // ---------------------------------------------------------------------------

  /** No identity occurs twice in `s`. */
  predicate Distinct<P(==)>(s: seq<P>) {
    forall i, j :: 0 <= i < j < |s| ==> s[i] != s[j]
  }

  /** Every vote is counted once in exactly one tally, and nobody voted twice. */
  predicate WellFormed<P(==)>(p: Proposal<P>) {
    p.approve + p.reject + p.pass == |p.voted| && Distinct(p.voted)
  }

  predicate AllWellFormed<P(==)>(m: Store<P>) {
    forall id :: id in m ==> WellFormed(m[id])
  }

  // ---------------------------------------------------------------------------
  // The transitions, as functions of the store before the call
  // ---------------------------------------------------------------------------

  /** The outcome of an operation together with the store it leaves behind. */
  datatype Step<P> = Step(outcome: Outcome, store: Store<P>)

  /** The record `create_proposal` builds: no votes yet, owned by the caller. */
  function NewProposal<P>(payload: ProposalPayload, caller: P): Proposal<P> {
    Proposal(payload.description, 0, 0, 0, payload.isActive, [], caller)
  }

  /** `vote`'s update of the record: one more in the chosen tally, caller appended to `voted`. */
  function Counted<P>(p: Proposal<P>, choice: Choice, caller: P): Proposal<P> {
    var tallied :=
      match choice
      case Approve => p.(approve := p.approve + 1)
      case Reject => p.(reject := p.reject + 1)
      case Pass => p.(pass := p.pass + 1);
    tallied.(voted := p.voted + [caller])
  }

  /** `create_proposal` writes without looking at what is stored at `id`. */
  function CreateStep<P>(m: Store<P>, id: nat, payload: ProposalPayload, caller: P): Store<P> {
    m[id := NewProposal(payload, caller)]
  }

  function EditStep<P(==)>(m: Store<P>, id: nat, payload: ProposalPayload, caller: P): Step<P> {
    if id !in m then Step(Err(NoSuchProposal), m)
    else if caller != m[id].owner then Step(Err(AccessRejected), m)
    else
      var old_ := m[id];
      Step(Ok(()), m[id := Proposal(payload.description, old_.approve, old_.reject, old_.pass,
                                    payload.isActive, old_.voted, caller)])
  }

  function EndStep<P(==)>(m: Store<P>, id: nat, caller: P): Step<P> {
    if id !in m then Step(Err(NoSuchProposal), m)
    else if caller != m[id].owner then Step(Err(AccessRejected), m)
    else Step(Ok(()), m[id := m[id].(isActive := false)])
  }

  function VoteStep<P(==)>(m: Store<P>, id: nat, choice: Choice, caller: P): Step<P> {
    if id !in m then Step(Err(NoSuchProposal), m)
    else if !m[id].isActive then Step(Err(ProposalIsNotActive), m)
    else if caller in m[id].voted then Step(Err(AlreadyVoted), m)
    else Step(Ok(()), m[id := Counted(m[id], choice, caller)])
  }

  // ---------------------------------------------------------------------------
  // Properties of each transition
  // ---------------------------------------------------------------------------

  /** The record written by create, and the effect on the number of stored proposals. */
  lemma CreateStepSpec<P>(m: Store<P>, id: nat, payload: ProposalPayload, caller: P)
    ensures var m' := CreateStep(m, id, payload, caller);
      && id in m'
      && m'[id].approve == 0 && m'[id].reject == 0 && m'[id].pass == 0
      && m'[id].voted == [] && m'[id].owner == caller
      && m'[id].description == payload.description && m'[id].isActive == payload.isActive
      && m'.Keys == m.Keys + {id}
      && (forall k :: k in m && k != id ==> m'[k] == m[k])
      && |m'| == (if id in m then |m| else |m| + 1)
  {
  }

  /** Edit fails on a missing id, then on a caller other than the owner, and changes nothing then. */
  lemma EditStepErrors<P>(m: Store<P>, id: nat, payload: ProposalPayload, caller: P)
    ensures id !in m ==> EditStep(m, id, payload, caller) == Step(Err(NoSuchProposal), m)
    ensures id in m && caller != m[id].owner ==>
      EditStep(m, id, payload, caller) == Step(Err(AccessRejected), m)
    ensures EditStep(m, id, payload, caller).outcome.Ok? <==> id in m && caller == m[id].owner
  {
  }

  /** A successful edit replaces description and activity and nothing else, the owner included. */
  lemma EditStepSuccess<P>(m: Store<P>, id: nat, payload: ProposalPayload, caller: P)
    requires id in m && caller == m[id].owner
    ensures var s := EditStep(m, id, payload, caller);
      && s.outcome == Ok(())
      && s.store.Keys == m.Keys
      && s.store[id] == m[id].(description := payload.description, isActive := payload.isActive)
      && (forall k :: k in m && k != id ==> s.store[k] == m[k])
  {
  }

  /** End fails like edit does, and changes nothing then. */
  lemma EndStepErrors<P>(m: Store<P>, id: nat, caller: P)
    ensures id !in m ==> EndStep(m, id, caller) == Step(Err(NoSuchProposal), m)
    ensures id in m && caller != m[id].owner ==> EndStep(m, id, caller) == Step(Err(AccessRejected), m)
    ensures EndStep(m, id, caller).outcome.Ok? <==> id in m && caller == m[id].owner
  {
  }

  /** A successful end clears `isActive` and changes nothing else. */
  lemma EndStepSuccess<P>(m: Store<P>, id: nat, caller: P)
    requires id in m && caller == m[id].owner
    ensures var s := EndStep(m, id, caller);
      && s.outcome == Ok(())
      && s.store.Keys == m.Keys
      && s.store[id] == m[id].(isActive := false)
      && (forall k :: k in m && k != id ==> s.store[k] == m[k])
  {
  }

  /** Ending a proposal a second time gives the same outcome and the same store. */
  lemma EndStepIdempotent<P>(m: Store<P>, id: nat, caller: P)
    ensures var s := EndStep(m, id, caller);
      && EndStep(s.store, id, caller) == s
      && (id in m && caller == m[id].owner ==> s.outcome == Ok(()))
  {
  }

  /** Vote checks existence, then activity (before any voter check), then an earlier vote. */
  lemma VoteStepErrors<P>(m: Store<P>, id: nat, choice: Choice, caller: P)
    ensures id !in m ==> VoteStep(m, id, choice, caller) == Step(Err(NoSuchProposal), m)
    ensures id in m && !m[id].isActive ==>
      VoteStep(m, id, choice, caller) == Step(Err(ProposalIsNotActive), m)
    ensures id in m && m[id].isActive && caller in m[id].voted ==>
      VoteStep(m, id, choice, caller) == Step(Err(AlreadyVoted), m)
    ensures VoteStep(m, id, choice, caller).outcome.Ok? <==>
      id in m && m[id].isActive && caller !in m[id].voted
  {
  }

  /** A successful vote adds one to the chosen tally only and appends the caller to `voted`. */
  lemma VoteStepSuccess<P>(m: Store<P>, id: nat, choice: Choice, caller: P)
    requires id in m && m[id].isActive && caller !in m[id].voted
    ensures var s := VoteStep(m, id, choice, caller);
      var p, p' := m[id], s.store[id];
      && s.outcome == Ok(())
      && s.store.Keys == m.Keys
      && p'.approve == p.approve + (if choice == Approve then 1 else 0)
      && p'.reject == p.reject + (if choice == Reject then 1 else 0)
      && p'.pass == p.pass + (if choice == Pass then 1 else 0)
      && p'.voted == p.voted + [caller]
      && p'.description == p.description && p'.isActive == p.isActive && p'.owner == p.owner
      && (forall k :: k in m && k != id ==> s.store[k] == m[k])
  {
  }

  /** Voting keeps the tallies equal to the number of voters, and voters distinct. */
  lemma VoteStepPreservesWellFormed<P>(m: Store<P>, id: nat, choice: Choice, caller: P)
    requires AllWellFormed(m)
    ensures AllWellFormed(VoteStep(m, id, choice, caller).store)
  {
  }

  // ---------------------------------------------------------------------------
  // Sequences of calls
  // ---------------------------------------------------------------------------

  /** One update call of the canister, with the identity that made it. */
  datatype Call<P> =
    | CreateCall(id: nat, payload: ProposalPayload, caller: P)
    | EditCall(id: nat, payload: ProposalPayload, caller: P)
    | EndCall(id: nat, caller: P)
    | VoteCall(id: nat, choice: Choice, caller: P)

  function After<P(==)>(m: Store<P>, call: Call<P>): Store<P> {
    match call
    case CreateCall(id, payload, caller) => CreateStep(m, id, payload, caller)
    case EditCall(id, payload, caller) => EditStep(m, id, payload, caller).store
    case EndCall(id, caller) => EndStep(m, id, caller).store
    case VoteCall(id, choice, caller) => VoteStep(m, id, choice, caller).store
  }

  /** The store after the calls run one after another, each to completion. */
  function Run<P(==)>(m: Store<P>, calls: seq<Call<P>>): Store<P>
    decreases |calls|
  {
    if calls == [] then m else Run(After(m, calls[0]), calls[1..])
  }

  /** The ids passed to `create_proposal` in `calls`. */
  function CreatedIds<P>(calls: seq<Call<P>>): set<nat>
    decreases |calls|
  {
    if calls == [] then {}
    else (if calls[0].CreateCall? then {calls[0].id} else {}) + CreatedIds(calls[1..])
  }

  /** A call changes at most the record under its own id, and only create adds a key. */
  lemma AfterTouchesOnlyItsId<P>(m: Store<P>, call: Call<P>)
    ensures var m' := After(m, call);
      && m'.Keys == m.Keys + (if call.CreateCall? then {call.id} else {})
      && (forall k :: k in m && k != call.id ==> m'[k] == m[k])
  {
  }

  /** No call ever reports UpdateError: the id it writes was present just before. */
  lemma NoUpdateError<P>(m: Store<P>, id: nat, payload: ProposalPayload, choice: Choice, caller: P)
    ensures EditStep(m, id, payload, caller).outcome != Err(UpdateError)
    ensures EndStep(m, id, caller).outcome != Err(UpdateError)
    ensures VoteStep(m, id, choice, caller).outcome != Err(UpdateError)
  {
  }

  lemma AfterPreservesWellFormed<P>(m: Store<P>, call: Call<P>)
    requires AllWellFormed(m)
    ensures AllWellFormed(After(m, call))
  {
  }

  /** From a well-formed store, every sequence of calls leaves every proposal well-formed. */
  lemma {:induction false} RunPreservesWellFormed<P>(m: Store<P>, calls: seq<Call<P>>)
    requires AllWellFormed(m)
    ensures AllWellFormed(Run(m, calls))
    decreases |calls|
  {
    if calls != [] {
      AfterPreservesWellFormed(m, calls[0]);
      RunPreservesWellFormed(After(m, calls[0]), calls[1..]);
    }
  }

  /** Only create adds keys, and edit, end and vote never remove one. */
  lemma {:induction false} RunKeys<P>(m: Store<P>, calls: seq<Call<P>>)
    ensures Run(m, calls).Keys == m.Keys + CreatedIds(calls)
    decreases |calls|
  {
    if calls != [] {
      AfterTouchesOnlyItsId(m, calls[0]);
      RunKeys(After(m, calls[0]), calls[1..]);
    }
  }

  /** From an empty store, the count is the number of distinct ids ever passed to create. */
  lemma CountIsDistinctCreatedIds<P>(calls: seq<Call<P>>)
    ensures |Run(map[], calls)| == |CreatedIds(calls)|
  {
    RunKeys(map[], calls);
    assert Run(map[], calls).Keys == CreatedIds(calls);
  }

  /** Edit, end and vote never change the owner: only a create at the same id can. */
  lemma {:induction false} OwnerStable<P>(m: Store<P>, calls: seq<Call<P>>, id: nat)
    requires id in m && id !in CreatedIds(calls)
    ensures id in Run(m, calls) && Run(m, calls)[id].owner == m[id].owner
    decreases |calls|
  {
    if calls != [] {
      var m' := After(m, calls[0]);
      assert id in m' && m'[id].owner == m[id].owner;
      OwnerStable(m', calls[1..], id);
    }
  }

  /** Create overwrites whatever is stored under its id, whoever owned it. */
  lemma CreateOverwritesOwner<P>(m: Store<P>, id: nat, payload: ProposalPayload, caller: P)
    requires id in m && m[id].owner != caller
    ensures var m' := CreateStep(m, id, payload, caller);
      m'[id].owner == caller && m'[id].owner != m[id].owner && |m'| == |m|
  {
  }

  /**
    The scenario: a creates proposal 1, b votes twice, c tries to end it,
    a ends it, d votes.
   */
  lemma Scenario<P>(a: P, b: P, c: P, d: P, text: string)
    requires c != a
    ensures
      var m1 := CreateStep(map[], 1, ProposalPayload(text, true), a);
      var s2 := VoteStep(m1, 1, Approve, b);
      var s3 := VoteStep(s2.store, 1, Approve, b);
      var s4 := EndStep(s3.store, 1, c);
      var s5 := EndStep(s4.store, 1, a);
      var s6 := VoteStep(s5.store, 1, Reject, d);
      && m1[1] == Proposal(text, 0, 0, 0, true, [], a)
      && s2.outcome == Ok(()) && s2.store[1].approve == 1 && s2.store[1].voted == [b]
      && s3 == Step(Err(AlreadyVoted), s2.store)
      && s4 == Step(Err(AccessRejected), s3.store) && s4.store[1].isActive
      && s5.outcome == Ok(()) && !s5.store[1].isActive
      && s6 == Step(Err(ProposalIsNotActive), s5.store)
      && s6.store[1] == Proposal(text, 1, 0, 0, false, [b], a)
  {
  }

  // ---------------------------------------------------------------------------
  // The canister's state and its entry points
  // ---------------------------------------------------------------------------

  class ProposalStore<P(==)> {
    var store: Store<P>

    ghost predicate Valid()
      reads this
    {
      AllWellFormed(store)
    }

    constructor ()
      ensures Valid() && store == map[]
    {
      store := map[];
    }

    /** `StableBTreeMap::insert`: writes `p` under `id` and returns the record it replaced. */
    method Insert(id: nat, p: Proposal<P>) returns (prev: Option<Proposal<P>>)
      modifies this
      ensures prev == Get(old(store), id)
      ensures store == old(store)[id := p]
    {
      prev := Get(store, id);
      store := store[id := p];
    }

    /** `get_proposal_count`: the number of stored proposals. */
    method ProposalCount() returns (n: nat)
      ensures n == |store.Keys|
    {
      n := |store|;
    }

    /** `_insert_proposal`: stores the record, ignoring what it replaced. */
    method InsertProposal(id: nat, proposal: Proposal<P>)
      modifies this
      ensures store == old(store)[id := proposal]
    {
      var _ := Insert(id, proposal);
    }

    /** `create_proposal`. */
    method CreateProposal(id: nat, payload: ProposalPayload, caller: P) returns (r: Option<Proposal<P>>)
      requires Valid()
      modifies this
      ensures Valid()
      ensures store == CreateStep(old(store), id, payload, caller)
      ensures r == Some(store[id])
    {
      var proposal := Proposal(payload.description, 0, 0, 0, payload.isActive, [], caller);
      InsertProposal(id, proposal);
      r := Some(proposal);
    }

    /** `edit_proposal`. */
    method EditProposal(id: nat, payload: ProposalPayload, caller: P) returns (r: Outcome)
      requires Valid()
      modifies this
      ensures Valid()
      ensures Step(r, store) == EditStep(old(store), id, payload, caller)
    {
      var oldProposalTemp := Get(store, id);
      if oldProposalTemp.None? {
        return Err(NoSuchProposal);
      }
      var oldProposal := oldProposalTemp.value;
      if caller != oldProposal.owner {
        return Err(AccessRejected);
      }
      var value := Proposal(payload.description, oldProposal.approve, oldProposal.reject,
                            oldProposal.pass, payload.isActive, oldProposal.voted, caller);
      var res := Insert(id, value);
      match res {
        case Some(_) => r := Ok(());
        case None => r := Err(UpdateError);
      }
    }

    /** `end_proposal`. */
    method EndProposal(id: nat, caller: P) returns (r: Outcome)
      requires Valid()
      modifies this
      ensures Valid()
      ensures Step(r, store) == EndStep(old(store), id, caller)
    {
      var proposalTemp := Get(store, id);
      if proposalTemp.None? {
        return Err(NoSuchProposal);
      }
      var proposal := proposalTemp.value;
      if caller != proposal.owner {
        return Err(AccessRejected);
      }
      proposal := proposal.(isActive := false);
      var res := Insert(id, proposal);
      match res {
        case Some(_) => r := Ok(());
        case None => r := Err(UpdateError);
      }
    }

    /** `vote`. */
    method Vote(id: nat, choice: Choice, caller: P) returns (r: Outcome)
      requires Valid()
      modifies this
      ensures Valid()
      ensures Step(r, store) == VoteStep(old(store), id, choice, caller)
    {
      var proposalTemp := Get(store, id);
      if proposalTemp.None? {
        return Err(NoSuchProposal);
      }
      var proposal := proposalTemp.value;
      if !proposal.isActive {
        return Err(ProposalIsNotActive);
      } else if caller in proposal.voted {
        return Err(AlreadyVoted);
      }
      match choice {
        case Approve => proposal := proposal.(approve := proposal.approve + 1);
        case Reject => proposal := proposal.(reject := proposal.reject + 1);
        case Pass => proposal := proposal.(pass := proposal.pass + 1);
      }
      proposal := proposal.(voted := proposal.voted + [caller]);
      VoteStepPreservesWellFormed(store, id, choice, caller);
      var res := Insert(id, proposal);
      match res {
        case Some(_) => r := Ok(());
        case None => r := Err(UpdateError);
      }
    }
  }
}
