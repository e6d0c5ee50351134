/**
  The users canister: posts kept in a keyed store, each under an id handed
  out by a persisted counter (the sequence allocator).

  The caller's identity (`ic_cdk::caller()`) and the clock (`ic_cdk::api::time()`)
  are explicit arguments of `PublishPost`.
 */
module Users {
  import opened Wrappers

  datatype PostType = Free | Silver | Gold | Platinum | Paid

  /** Both error kinds the canister declares; `AlreadyLiked` is never produced. */
  datatype PostError = PostNotFound | AlreadyLiked

  datatype Post<P> = Post(
    id: nat,
    content: string,
    image: Option<string>,
    video: Option<string>,
    postType: PostType,
    creatorId: P,
    likes: seq<P>,
    comments: seq<string>,
    createdAt: nat,
    updatedAt: Option<nat>)

  datatype PostPayload = PostPayload(
    content: string,
    image: Option<string>,
    video: Option<string>,
    postType: PostType)

  /** The record `publish_post` builds for a payload, given the allocated id, the caller and the time. */
  function NewPost<P>(id: nat, payload: PostPayload, caller: P, now: nat): Post<P> {
    Post(id, payload.content, payload.image, payload.video, payload.postType,
         caller, [], [], now, None)
  }

  // ---------------------------------------------------------------------------
  // The canister's state as a value, and publishing as a function of it
  // ---------------------------------------------------------------------------

  /** The id counter and the post map. */
  datatype Feed<P> = Feed(counter: nat, posts: map<nat, Post<P>>)

  /**
    Every post is stored under its own id, and every id in use was handed out
    by the counter already (so the counter's next value is free).
   */
  predicate Allocated<P>(f: Feed<P>) {
    forall k :: k in f.posts ==> f.posts[k].id == k && k < f.counter
  }

  /** What one `publish_post` call is given besides the state. */
  datatype Publication<P> = Publication(payload: PostPayload, caller: P, now: nat)

  function Publish<P>(f: Feed<P>, pub: Publication<P>): Feed<P> {
    Feed(f.counter + 1, f.posts[f.counter := NewPost(f.counter, pub.payload, pub.caller, pub.now)])
  }

  /** The state after the publications are made one after another. */
  function PublishAll<P>(f: Feed<P>, pubs: seq<Publication<P>>): Feed<P>
    decreases |pubs|
  {
    if pubs == [] then f else PublishAll(Publish(f, pubs[0]), pubs[1..])
  }

  /**
    One publication: the new post takes the counter's value as its id and is
    built from the payload, caller and time; the counter moves on by one; the
    post lands under a key that was free, so no earlier post changes and the
    map grows by one.
   */
  lemma PublishSpec<P>(f: Feed<P>, pub: Publication<P>)
    requires Allocated(f)
    ensures var f' := Publish(f, pub);
      var post := f'.posts[f.counter];
      && Allocated(f')
      && f'.counter == f.counter + 1
      && f.counter !in f.posts
      && post.id == f.counter
      && post.creatorId == pub.caller
      && post.likes == [] && post.comments == []
      && post.createdAt == pub.now && post.updatedAt == None
      && post.content == pub.payload.content && post.image == pub.payload.image
      && post.video == pub.payload.video && post.postType == pub.payload.postType
      && f'.posts.Keys == f.posts.Keys + {f.counter}
      && (forall k :: k in f.posts ==> f'.posts[k] == f.posts[k])
      && |f'.posts| == |f.posts| + 1
  {
  }

  /**
    Successive publications: the counter moves on by one per publication, no
    earlier post is changed or overwritten, and the map grows by one per
    publication.
   */
  lemma {:induction false} PublishAllGrows<P>(f: Feed<P>, pubs: seq<Publication<P>>)
    requires Allocated(f)
    ensures var f' := PublishAll(f, pubs);
      && Allocated(f')
      && f'.counter == f.counter + |pubs|
      && (forall k :: k in f.posts ==> k in f'.posts && f'.posts[k] == f.posts[k])
      && |f'.posts| == |f.posts| + |pubs|
    decreases |pubs|
  {
    if pubs != [] {
      PublishSpec(f, pubs[0]);
      PublishAllGrows(Publish(f, pubs[0]), pubs[1..]);
    }
  }

  /**
    The i-th of successive publications is stored under id `counter + i`, so
    the ids handed out are distinct and increasing.
   */
  lemma {:induction false} PublishAllAt<P>(f: Feed<P>, pubs: seq<Publication<P>>, i: nat)
    requires Allocated(f) && i < |pubs|
    ensures var f' := PublishAll(f, pubs);
      && f.counter + i in f'.posts
      && f'.posts[f.counter + i] == NewPost(f.counter + i, pubs[i].payload, pubs[i].caller, pubs[i].now)
    decreases |pubs|
  {
    var g := Publish(f, pubs[0]);
    PublishSpec(f, pubs[0]);
    if i == 0 {
      PublishAllGrows(g, pubs[1..]);
    } else {
      PublishAllAt(g, pubs[1..], i - 1);
    }
  }

  // ---------------------------------------------------------------------------
  // The canister's state and its entry points
  // ---------------------------------------------------------------------------

  class PostStore<P> {
    /** `ID_COUNTER`: the next id to hand out. */
    var counter: nat
    /** `POST_MAP`. */
    var posts: map<nat, Post<P>>

    ghost function State(): Feed<P>
      reads this
    {
      Feed(counter, posts)
    }

    ghost predicate Valid()
      reads this
    {
      Allocated(State())
    }

    /** Both the counter and the map start empty. */
    constructor ()
      ensures Valid() && counter == 0 && posts == map[]
    {
      counter := 0;
      posts := map[];
    }

    /** `get_post_detail`: the post stored under `id`, or `PostNotFound`. */
    method GetPostDetail(id: nat) returns (r: Result<Post<P>, PostError>)
      ensures r.Ok? <==> id in posts
      ensures r.Ok? ==> r.value == posts[id]
      ensures r.Err? ==> r.error == PostNotFound
    {
      var post := Get(posts, id);
      match post {
        case Some(value) => r := Ok(value);
        case None => r := Err(PostNotFound);
      }
    }

    /** The counter update in `publish_post`: returns the value read, stores it plus one. */
    method NextId() returns (id: nat)
      modifies this`counter
      ensures id == old(counter) && counter == old(counter) + 1
    {
      var currentValue := counter;
      counter := currentValue + 1;
      id := currentValue;
    }

    /** `_insert_post`: stores the post under its own id. */
    method InsertPost(post: Post<P>)
      modifies this`posts
      ensures posts == old(posts)[post.id := post]
    {
      posts := posts[post.id := post];
    }

    /** `publish_post`. */
    method PublishPost(payload: PostPayload, caller: P, now: nat) returns (r: Option<Post<P>>)
      requires Valid()
      modifies this
      ensures Valid()
      ensures State() == Publish(old(State()), Publication(payload, caller, now))
      ensures r.Some? && r.value.id == old(counter) && r.value == posts[r.value.id]
    {
      var id := NextId();
      var post := Post(id, payload.content, payload.image, payload.video, payload.postType,
                       caller, [], [], now, None);
      InsertPost(post);
      r := Some(post);
    }
  }
}
