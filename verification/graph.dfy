/**
 * The social graph behind the User model, as values.
 *
 * The application keeps two junction tables: `user_follow`, whose rows
 * (user_id, follow_id) say that user_id follows follow_id, and `favorites`,
 * whose rows (user_id, micropost_id) say that a user has marked a post as a
 * favorite. Each table is modelled here as a finite set of id pairs. The
 * queries of the User model (followings, followers, favorites) are functions
 * of these sets, and each guarded mutator (follow, unfollow, favorite,
 * unfavorite) is described by a step function that gives its boolean answer
 * and the table it leaves behind. The class in module Users performs the
 * same steps in place and is specified by these functions.
 */
module Graph {

  type UserId = int
  type PostId = int

  /** A row of `user_follow`: the first user follows the second. */
  type FollowEdge = (UserId, UserId)

  /** A row of `favorites`: the user has marked the post as a favorite. */
  type FavoriteEdge = (UserId, PostId)

  /** What a guarded mutator answers, and the table it leaves behind. */
  datatype Step<E> = Step(changed: bool, edges: set<E>)

  // ---------------------------------------------------------------------
  // Queries

  /** followings(): the users `u` follows, reading `user_follow` from user_id to follow_id. */
  function Followings(follows: set<FollowEdge>, u: UserId): (r: set<UserId>)
    ensures forall v :: v in r <==> (u, v) in follows
  {
    set e | e in follows && e.0 == u :: e.1
  }

  /** followers(): the users who follow `u`, reading the same table from follow_id to user_id. */
  function Followers(follows: set<FollowEdge>, u: UserId): (r: set<UserId>)
    ensures forall v :: v in r <==> (v, u) in follows
  {
    set e | e in follows && e.1 == u :: e.0
  }

  /** favorites(): the posts user `u` has marked, reading `favorites` from user_id to micropost_id. */
  function FavoritesOf(favorites: set<FavoriteEdge>, u: UserId): (r: set<PostId>)
    ensures forall p :: p in r <==> (u, p) in favorites
  {
    set e | e in favorites && e.0 == u :: e.1
  }

  /** No user follows themself: the property the self-reference guard of follow protects. */
  predicate NoSelfFollow(follows: set<FollowEdge>)
  {
    forall e | e in follows :: e.0 != e.1
  }

  // ---------------------------------------------------------------------
  // Guarded mutators

  /**
   * follow(target) called by `me`: answers false and changes nothing when
   * `me` already follows `target` or `target` is `me`; otherwise attaches the
   * edge (me, target) and answers true.
   */
  function FollowStep(follows: set<FollowEdge>, me: UserId, target: UserId): (r: Step<FollowEdge>)
    ensures r.changed <==> me != target && target !in Followings(follows, me)
    ensures target in Followings(r.edges, me) <==> r.changed || target in Followings(follows, me)
    ensures forall e | e != (me, target) :: e in r.edges <==> e in follows
  {
    var exist := target in Followings(follows, me);
    var itsMe := me == target;
    if exist || itsMe then Step(false, follows) else Step(true, follows + {(me, target)})
  }

  /**
   * unfollow(target) called by `me`: answers true and detaches (me, target)
   * only when that edge exists and `target` is not `me`; otherwise answers
   * false and changes nothing.
   */
  function UnfollowStep(follows: set<FollowEdge>, me: UserId, target: UserId): (r: Step<FollowEdge>)
    ensures r.changed <==> me != target && target in Followings(follows, me)
    ensures target in Followings(r.edges, me) <==> !r.changed && target in Followings(follows, me)
    ensures forall e | e != (me, target) :: e in r.edges <==> e in follows
  {
    var exist := target in Followings(follows, me);
    var itsMe := me == target;
    if exist && !itsMe then Step(true, follows - {(me, target)}) else Step(false, follows)
  }

  /**
   * favorite(post) called by `me`: answers false and changes nothing when the
   * post is already a favorite of `me`; otherwise attaches (me, post) and
   * answers true. Nothing stops a user from favoriting their own post.
   */
  function FavoriteStep(favorites: set<FavoriteEdge>, me: UserId, post: PostId): (r: Step<FavoriteEdge>)
    ensures r.changed <==> post !in FavoritesOf(favorites, me)
    ensures post in FavoritesOf(r.edges, me)
    ensures forall e | e != (me, post) :: e in r.edges <==> e in favorites
  {
    var exist := post in FavoritesOf(favorites, me);
    if exist then Step(false, favorites) else Step(true, favorites + {(me, post)})
  }

  /**
   * unfavorite(post) called by `me`: answers true and detaches (me, post)
   * exactly when the post is a favorite of `me`; otherwise answers false and
   * changes nothing.
   */
  function UnfavoriteStep(favorites: set<FavoriteEdge>, me: UserId, post: PostId): (r: Step<FavoriteEdge>)
    ensures r.changed <==> post in FavoritesOf(favorites, me)
    ensures post !in FavoritesOf(r.edges, me)
    ensures forall e | e != (me, post) :: e in r.edges <==> e in favorites
  {
    var exist := post in FavoritesOf(favorites, me);
    if exist then Step(true, favorites - {(me, post)}) else Step(false, favorites)
  }

  // ---------------------------------------------------------------------
  // Properties of the follow graph

  /** followers and followings are the two directions of one table. */
  lemma FollowersAreInverseOfFollowings(follows: set<FollowEdge>, u: UserId, v: UserId)
    ensures v in Followers(follows, u) <==> u in Followings(follows, v)
  {
  }

  /** A refused follow leaves the table exactly as it was. */
  lemma FollowRefusedKeepsTable(follows: set<FollowEdge>, me: UserId, target: UserId)
    requires me == target || target in Followings(follows, me)
    ensures FollowStep(follows, me, target) == Step(false, follows)
  {
  }

  /** An accepted follow adds exactly the one edge (me, target). */
  lemma FollowAddsOneEdge(follows: set<FollowEdge>, me: UserId, target: UserId)
    requires me != target && target !in Followings(follows, me)
    ensures FollowStep(follows, me, target).changed
    ensures FollowStep(follows, me, target).edges == follows + {(me, target)}
    ensures (me, target) !in follows
  {
  }

  /** follow and unfollow never introduce a self-edge, so is_following(me) stays false for me. */
  lemma FollowKeepsNoSelfFollow(follows: set<FollowEdge>, me: UserId, target: UserId)
    requires NoSelfFollow(follows)
    ensures NoSelfFollow(FollowStep(follows, me, target).edges)
    ensures NoSelfFollow(UnfollowStep(follows, me, target).edges)
    ensures me !in Followings(FollowStep(follows, me, target).edges, me)
    ensures me !in Followings(UnfollowStep(follows, me, target).edges, me)
  {
  }

  /** Once no self-edge exists, the self-reference guard of unfollow never decides anything. */
  lemma UnfollowGuardOnlyChecksEdge(follows: set<FollowEdge>, me: UserId, target: UserId)
    requires NoSelfFollow(follows)
    ensures UnfollowStep(follows, me, target).changed <==> target in Followings(follows, me)
  {
  }

  /** A follow that answered true is undone exactly by the next unfollow, which answers true. */
  lemma FollowThenUnfollowRestores(follows: set<FollowEdge>, me: UserId, target: UserId)
    requires FollowStep(follows, me, target).changed
    ensures UnfollowStep(FollowStep(follows, me, target).edges, me, target) == Step(true, follows)
  {
  }

  /** An unfollow that answered true is undone by the next follow, which answers true. */
  lemma UnfollowThenFollowRestores(follows: set<FollowEdge>, me: UserId, target: UserId)
    requires UnfollowStep(follows, me, target).changed
    ensures FollowStep(UnfollowStep(follows, me, target).edges, me, target) == Step(true, follows)
  {
  }

  /** Following twice: the second call answers false and leaves the table as the first left it. */
  lemma FollowTwiceIsRefused(follows: set<FollowEdge>, me: UserId, target: UserId)
    ensures FollowStep(FollowStep(follows, me, target).edges, me, target)
         == Step(false, FollowStep(follows, me, target).edges)
  {
  }

  /** Unfollowing someone not followed answers false and leaves the table unchanged. */
  lemma UnfollowWithoutEdgeIsRefused(follows: set<FollowEdge>, me: UserId, target: UserId)
    requires target !in Followings(follows, me)
    ensures UnfollowStep(follows, me, target) == Step(false, follows)
  {
  }

  /**
   * An accepted follow makes `target` one more of `me`'s followings and `me`
   * one more of `target`'s followers; every other user's lists stay as they were.
   */
  lemma FollowUpdatesBothDirections(follows: set<FollowEdge>, me: UserId, target: UserId, u: UserId)
    requires FollowStep(follows, me, target).changed
    ensures Followings(FollowStep(follows, me, target).edges, me) == Followings(follows, me) + {target}
    ensures Followers(FollowStep(follows, me, target).edges, target) == Followers(follows, target) + {me}
    ensures |Followings(FollowStep(follows, me, target).edges, me)| == |Followings(follows, me)| + 1
    ensures |Followers(FollowStep(follows, me, target).edges, target)| == |Followers(follows, target)| + 1
    ensures u != me ==> Followings(FollowStep(follows, me, target).edges, u) == Followings(follows, u)
    ensures u != target ==> Followers(FollowStep(follows, me, target).edges, u) == Followers(follows, u)
  {
  }

  /**
   * An accepted unfollow removes `target` from `me`'s followings and `me`
   * from `target`'s followers; every other user's lists stay as they were.
   */
  lemma UnfollowUpdatesBothDirections(follows: set<FollowEdge>, me: UserId, target: UserId, u: UserId)
    requires UnfollowStep(follows, me, target).changed
    ensures Followings(UnfollowStep(follows, me, target).edges, me) == Followings(follows, me) - {target}
    ensures Followers(UnfollowStep(follows, me, target).edges, target) == Followers(follows, target) - {me}
    ensures |Followings(UnfollowStep(follows, me, target).edges, me)| + 1 == |Followings(follows, me)|
    ensures |Followers(UnfollowStep(follows, me, target).edges, target)| + 1 == |Followers(follows, target)|
    ensures u != me ==> Followings(UnfollowStep(follows, me, target).edges, u) == Followings(follows, u)
    ensures u != target ==> Followers(UnfollowStep(follows, me, target).edges, u) == Followers(follows, u)
  {
  }

  // ---------------------------------------------------------------------
  // Properties of favorites

  /** Favoriting twice: the second call answers false and leaves the table as the first left it. */
  lemma FavoriteTwiceIsRefused(favorites: set<FavoriteEdge>, me: UserId, post: PostId)
    ensures FavoriteStep(FavoriteStep(favorites, me, post).edges, me, post)
         == Step(false, FavoriteStep(favorites, me, post).edges)
  {
  }

  /** A favorite that answered true is undone exactly by the next unfavorite, which answers true. */
  lemma FavoriteThenUnfavoriteRestores(favorites: set<FavoriteEdge>, me: UserId, post: PostId)
    requires FavoriteStep(favorites, me, post).changed
    ensures UnfavoriteStep(FavoriteStep(favorites, me, post).edges, me, post) == Step(true, favorites)
  {
  }

  /** An unfavorite that answered true is undone exactly by the next favorite, which answers true. */
  lemma UnfavoriteThenFavoriteRestores(favorites: set<FavoriteEdge>, me: UserId, post: PostId)
    requires UnfavoriteStep(favorites, me, post).changed
    ensures FavoriteStep(UnfavoriteStep(favorites, me, post).edges, me, post) == Step(true, favorites)
  {
  }

  /** An accepted favorite adds one to the user's favorites count; an accepted unfavorite takes one away. */
  lemma FavoriteCounts(favorites: set<FavoriteEdge>, me: UserId, post: PostId)
    ensures FavoriteStep(favorites, me, post).changed ==>
              |FavoritesOf(FavoriteStep(favorites, me, post).edges, me)| == |FavoritesOf(favorites, me)| + 1
    ensures UnfavoriteStep(favorites, me, post).changed ==>
              |FavoritesOf(UnfavoriteStep(favorites, me, post).edges, me)| + 1 == |FavoritesOf(favorites, me)|
  {
    var added := FavoriteStep(favorites, me, post);
    if added.changed {
      assert FavoritesOf(added.edges, me) == FavoritesOf(favorites, me) + {post};
    }
    var removed := UnfavoriteStep(favorites, me, post);
    if removed.changed {
      assert FavoritesOf(removed.edges, me) == FavoritesOf(favorites, me) - {post};
    }
  }
}
