# Proposals and posts: a Dafny model of two Internet Computer canisters

This project models the core of two canisters.

- The **proposals** canister keeps a map from a 64-bit id to a `Proposal`. Four update calls act on it: `create_proposal`, `edit_proposal`, `end_proposal` and `vote`. A query, `get_proposal_count`, reads it. Each update call reads the record, checks the caller and the record, and writes the new record back. On any failure it returns a typed `VoteError` and leaves the map alone.
- The **users** canister keeps a map from post id to `Post`. A persisted counter hands out the ids. `publish_post` takes the counter's current value as the new id, stores the counter plus one, and inserts the new post under that id. `get_post_detail` looks a post up and fails with `PostNotFound` when the id is absent.

The canister's ambient caller (`ic_cdk::caller()`) is an explicit argument of every call. So is its clock (`ic_cdk::api::time()`). A principal is an opaque type parameter `P` that supports only equality.

Files:

- `wrappers.dfy`: module `Wrappers`, with Rust's `Option` and `Result` and a map lookup.
- `proposals.dfy`: module `Proposals`.
  - The records and errors.
  - The record invariant `WellFormed`: the tallies add up to `|voted|`, and `voted` has no duplicates.
  - Each transition as a pure function of the map before the call: `CreateStep`, `EditStep`, `EndStep`, `VoteStep`.
  - Lemmas about each transition, and about whole sequences of calls (`Call`, `Run`).
  - The class `ProposalStore`, whose `store` field is the canister's map. Its methods are the canister's entry points, written step by step as the source is. Each is proved to produce exactly the outcome and map of its transition function.
- `users.dfy`: module `Users`.
  - The post records.
  - The state as a value (`Feed`: counter and map), with `Publish` and `PublishAll` and their lemmas.
  - The class `PostStore`, with fields `counter` and `posts` and the entry points.

## Model

| member | source | states |
|---|---|---|
| `Proposals.ProposalStore.constructor` | backend/canisters/proposals/src/lib.rs:71-75 | the store starts as the empty map, which satisfies the record invariant |
| `Proposals.ProposalStore.Insert` | backend/canisters/proposals/src/lib.rs:128-133 | the store's insert puts the record under the key and returns the record it replaced, or `None` if the key was free |
| `Proposals.ProposalStore.ProposalCount` | backend/canisters/proposals/src/lib.rs:78-81 | `get_proposal_count` is the number of distinct keys stored |
| `Proposals.ProposalStore.InsertProposal` | backend/canisters/proposals/src/lib.rs:99-101 | `_insert_proposal` writes the record under `id` and changes no other key |
| `Proposals.ProposalStore.CreateProposal` | backend/canisters/proposals/src/lib.rs:83-97 | the new map is `CreateStep` of the old one; the result is `Some` of exactly the stored record; the record invariant holds afterwards |
| `Proposals.CreateStepSpec` | backend/canisters/proposals/src/lib.rs:84-101 | after create at `id` by `c`: zero tallies, empty `voted`, owner `c`, description and `is_active` from the payload; every other key unchanged; the count rises by one for a fresh id and stays the same for an existing one |
| `Proposals.CreateOverwritesOwner` | backend/canisters/proposals/src/lib.rs:99-101 | create replaces a record owned by someone else without any check, and the count does not change |
| `Proposals.ProposalStore.EditProposal` | backend/canisters/proposals/src/lib.rs:103-135 | the outcome and the new map are those of `EditStep` on the old map; the record invariant holds afterwards |
| `Proposals.EditStepErrors` | backend/canisters/proposals/src/lib.rs:106-116 | edit fails with `NoSuchProposal` on a missing id, and otherwise with `AccessRejected` when the caller is not the owner; the map is unchanged in both cases; edit succeeds exactly when the id is present and the caller is its owner |
| `Proposals.EditStepSuccess` | backend/canisters/proposals/src/lib.rs:118-133 | a successful edit replaces only description and `is_active`; the tallies, `voted` and the owner are preserved, as are all other keys |
| `Proposals.ProposalStore.EndProposal` | backend/canisters/proposals/src/lib.rs:137-161 | the outcome and the new map are those of `EndStep` on the old map; the record invariant holds afterwards |
| `Proposals.EndStepErrors` | backend/canisters/proposals/src/lib.rs:140-150 | end fails with `NoSuchProposal`, then with `AccessRejected`, under the same rules as edit, and leaves the map unchanged |
| `Proposals.EndStepSuccess` | backend/canisters/proposals/src/lib.rs:152-159 | a successful end sets `is_active` to false and changes no other field and no other key |
| `Proposals.EndStepIdempotent` | backend/canisters/proposals/src/lib.rs:148-159 | ending twice gives the same outcome and the same map as ending once, for any caller; for the owner, both calls succeed |
| `Proposals.ProposalStore.Vote` | backend/canisters/proposals/src/lib.rs:163-197 | the outcome and the new map are those of `VoteStep` on the old map; the record invariant holds afterwards |
| `Proposals.VoteStepErrors` | backend/canisters/proposals/src/lib.rs:166-180 | vote fails with `NoSuchProposal` first; then with `ProposalIsNotActive` on an inactive record, whether or not the caller voted; then with `AlreadyVoted`; the map is unchanged on each error; vote succeeds exactly when none applies |
| `Proposals.VoteStepSuccess` | backend/canisters/proposals/src/lib.rs:182-195 | a successful vote adds one to the chosen tally only and appends the caller to `voted`; description, `is_active`, owner and all other keys are unchanged |
| `Proposals.VoteStepPreservesWellFormed` | backend/canisters/proposals/src/lib.rs:176-188 | voting keeps the tallies summing to the number of voters, and the voters distinct, in every record |
| `Proposals.NoUpdateError` | backend/canisters/proposals/src/lib.rs:128-133 | no edit, end or vote ever yields `UpdateError`: the key written on success was present just before |
| `Proposals.AfterTouchesOnlyItsId` | backend/canisters/proposals/src/lib.rs:84-101 | a call changes at most the record under its own id; only create adds a key, and no call removes one |
| `Proposals.RunPreservesWellFormed` | backend/canisters/proposals/src/lib.rs:163-197 | every sequence of calls keeps every record well formed: tallies sum to the voter count, and no voter appears twice |
| `Proposals.RunKeys` | backend/canisters/proposals/src/lib.rs:78-101 | after any sequence of calls, the stored keys are the initial keys plus the ids passed to create |
| `Proposals.CountIsDistinctCreatedIds` | backend/canisters/proposals/src/lib.rs:78-81 | starting from an empty store, the count equals the number of distinct ids ever passed to create |
| `Proposals.OwnerStable` | backend/canisters/proposals/src/lib.rs:114-126 | edit, end and vote never change a record's owner; only a create at the same id can |
| `Proposals.Scenario` | backend/canisters/proposals/src/lib.rs:84-197 | a creates, b votes twice, c tries to end, a ends, d votes: the calls give Ok, `AlreadyVoted`, `AccessRejected`, Ok and `ProposalIsNotActive`, and the record ends as approve 1, voted [b], inactive |
| `Users.PostStore.constructor` | backend/canisters/users/src/lib.rs:70-79 | the counter starts at 0 and the post map starts empty |
| `Users.PostStore.GetPostDetail` | backend/canisters/users/src/lib.rs:82-89 | `Ok` of the stored post exactly when `id` is present, `Err(PostNotFound)` otherwise; the counter and the map are not changed |
| `Users.PostStore.NextId` | backend/canisters/users/src/lib.rs:93-98 | the id returned is the counter before the call, and the counter becomes that value plus one |
| `Users.PostStore.InsertPost` | backend/canisters/users/src/lib.rs:117-119 | `_insert_post` stores the post under its own `id` and changes no other key |
| `Users.PostStore.PublishPost` | backend/canisters/users/src/lib.rs:91-115 | the new state is `Publish` of the old one; the result is `Some` of the stored post, whose id is the counter before the call; the allocation invariant is kept |
| `Users.PublishSpec` | backend/canisters/users/src/lib.rs:93-119 | the new post has creator = caller, empty likes and comments, `updated_at` None, `created_at` = the clock value, and content, image, video and type from the payload; its key was free, no earlier post changes, and the map grows by one |
| `Users.PublishAllGrows` | backend/canisters/users/src/lib.rs:93-119 | after n publications the counter has moved on by n, every earlier post is intact, and the map has grown by n |
| `Users.PublishAllAt` | backend/canisters/users/src/lib.rs:93-111 | the i-th of successive publications is stored under id counter + i, so the ids are distinct and increasing |

## Left out

- Candid encoding and the bounded record sizes (`MAX_SIZE` 5000 for a proposal, 1024 for a post) are left out. The encoding is a foreign library whose output size cannot be computed from the model. An over-size record makes the write trap, and a trap rolls the call back, so the model's states are the states of calls that did not trap.
- Stable memory is left out: the memory manager, virtual memories, the B-tree map and cell internals, thread-locals and persistence across upgrades. The map is a Dafny `map`, and the counter a `nat` field.
- Transport is left out: the `#[query]`/`#[update]` dispatch and Candid argument decoding.
- Platform calls become parameters: the caller and the clock value.
- `Proposals.ProposalStore.Vote`: does not model the `u32` width of the tallies. The tallies are `nat`, so `+= 1` cannot overflow. The overflow behaviour depends on Rust build flags, and the invariant `approve + reject + pass == |voted|` bounds the tallies by the voter count anyway.
- `Users.PostStore.NextId`: does not model the `u64` width of the counter, nor the library's `expect` failures on the counter cell. Ids are `nat`, and the counter never wraps.
- `VoteError::InvalidChoice` and `PostError::AlreadyLiked` are kept in the datatypes. No code path produces them, so nothing is proved about them.
- The proposals canister declares an `ID_COUNTER` cell of its own (backend/canisters/proposals/src/lib.rs:66-69), but no call reads or writes it. Proposals use caller-supplied ids, so the model has no counter there.
- Concurrency is not modelled. The platform runs each call to completion before the next one starts, and `Run` and `PublishAll` model exactly that sequential order.
