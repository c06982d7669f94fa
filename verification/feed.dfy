/**
 * The feed of a user: the posts written by the user or by anyone the user
 * follows. feed_microposts builds a list of author ids (the followed users'
 * ids, then the user's own id) and hands it to the post query as a
 * `whereIn('user_id', ids)` filter. Ordering by creation time and
 * pagination belong to the query layer and are not modelled.
 */
module Feed {
  import opened Graph

  /** A row of the microposts table, reduced to what the feed filter looks at. */
  datatype Micropost = Micropost(id: PostId, userId: UserId)

  /** The authors whose posts belong in `me`'s feed: the users `me` follows, and `me`. */
  function FeedAuthors(follows: set<FollowEdge>, me: UserId): (r: set<UserId>)
    ensures me in r
    ensures forall v :: v in r <==> v == me || (me, v) in follows
  {
    Followings(follows, me) + {me}
  }

  /**
   * The id list feed_microposts builds: the ids plucked from followings(),
   * in whatever order the query returned them, with `me` appended.
   */
  function FeedAuthorIds(followed: seq<UserId>, me: UserId): (r: seq<UserId>)
    ensures |r| == |followed| + 1
    ensures forall v :: v in r <==> v == me || v in followed
  {
    followed + [me]
  }

  /** Every id occurs at most once. */
  predicate Distinct(ids: seq<UserId>)
  {
    forall i, j | 0 <= i < j < |ids| :: ids[i] != ids[j]
  }

  /**
   * whereIn('user_id', ids): the posts whose author is in `ids`, each kept
   * as often as it occurs; posts by anyone else are dropped.
   */
  function WhereIn(posts: seq<Micropost>, ids: seq<UserId>): (r: seq<Micropost>)
    ensures |r| <= |posts|
    ensures forall p :: p in r <==> p in posts && p.userId in ids
    ensures forall p :: multiset(r)[p] == if p.userId in ids then multiset(posts)[p] else 0
  {
    if posts == [] then []
    else
      var rest := WhereIn(posts[1..], ids);
      assert posts == [posts[0]] + posts[1..];
      if posts[0].userId in ids then [posts[0]] + rest else rest
  }

  /** feed_microposts: the posts whose author is in the id list built for `me`. */
  function FeedPosts(posts: seq<Micropost>, followed: seq<UserId>, me: UserId): (r: seq<Micropost>)
    ensures forall p | p in posts && p.userId == me :: p in r
    ensures forall p :: p in r <==> p in posts && (p.userId == me || p.userId in followed)
  {
    WhereIn(posts, FeedAuthorIds(followed, me))
  }

  /**
   * When the plucked list enumerates `me`'s followings without repetition and
   * no user follows themself, the id list holds every feed author exactly
   * once: appending `me` never duplicates an id.
   */
  lemma FeedAuthorIdsExactlyOnce(follows: set<FollowEdge>, followed: seq<UserId>, me: UserId)
    requires NoSelfFollow(follows)
    requires Distinct(followed)
    requires forall v :: v in followed <==> v in Followings(follows, me)
    ensures Distinct(FeedAuthorIds(followed, me))
    ensures forall v :: v in FeedAuthorIds(followed, me) <==> v in FeedAuthors(follows, me)
    ensures |FeedAuthors(follows, me)| == |Followings(follows, me)| + 1
  {
  }

  /**
   * A post passes the feed filter exactly when its author is `me` or someone
   * `me` follows; in particular `me`'s own posts are always in the feed.
   */
  lemma FeedPostsAreByFeedAuthors(
    follows: set<FollowEdge>, posts: seq<Micropost>, followed: seq<UserId>, me: UserId, p: Micropost)
    requires forall v :: v in followed <==> v in Followings(follows, me)
    ensures p in FeedPosts(posts, followed, me) <==> p in posts && p.userId in FeedAuthors(follows, me)
  {
  }

  /**
   * An accepted follow adds exactly the followed user to the feed authors of
   * the follower and changes no one else's.
   */
  lemma FollowExtendsFeed(follows: set<FollowEdge>, me: UserId, target: UserId, u: UserId)
    requires FollowStep(follows, me, target).changed
    ensures FeedAuthors(FollowStep(follows, me, target).edges, me) == FeedAuthors(follows, me) + {target}
    ensures u != me ==> FeedAuthors(FollowStep(follows, me, target).edges, u) == FeedAuthors(follows, u)
  {
    FollowUpdatesBothDirections(follows, me, target, u);
  }

  /**
   * An accepted unfollow removes exactly the unfollowed user from the feed
   * authors of the follower, who stays in their own feed, and changes no
   * one else's.
   */
  lemma UnfollowShrinksFeed(follows: set<FollowEdge>, me: UserId, target: UserId, u: UserId)
    requires UnfollowStep(follows, me, target).changed
    ensures FeedAuthors(UnfollowStep(follows, me, target).edges, me) == FeedAuthors(follows, me) - {target}
    ensures me in FeedAuthors(UnfollowStep(follows, me, target).edges, me)
    ensures u != me ==> FeedAuthors(UnfollowStep(follows, me, target).edges, u) == FeedAuthors(follows, u)
  {
    UnfollowUpdatesBothDirections(follows, me, target, u);
  }
}
