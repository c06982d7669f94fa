/**
 * The User model's relationship operations, performed in place on the two
 * junction tables. A Store holds the rows of `user_follow` and `favorites`;
 * each operation takes the acting user's id (`$this->id` in the model) as
 * `me`. The mutators run the same check-then-act as the model (check for the
 * row, then attach or detach) and are specified by the step functions of
 * module Graph. Every id is taken to name an existing user or post.
 */
module Users {
  import opened Graph

  class Store {
    /** The rows of `user_follow`. */
    var follows: set<FollowEdge>
    /** The rows of `favorites`. */
    var favorites: set<FavoriteEdge>

    /** Empty tables. */
    constructor ()
      ensures follows == {} && favorites == {}
    {
      follows := {};
      favorites := {};
    }

    /** is_following: whether `me`'s followings include `target`. */
    predicate IsFollowing(me: UserId, target: UserId)
      reads this
      ensures IsFollowing(me, target) <==> (me, target) in follows
    {
      target in Followings(follows, me)
    }

    /** is_favorite: whether `me`'s favorites include `post`. */
    predicate IsFavorite(me: UserId, post: PostId)
      reads this
      ensures IsFavorite(me, post) <==> (me, post) in favorites
    {
      post in FavoritesOf(favorites, me)
    }

    /** follow: attach (me, target) unless it exists or target is me; answer whether it was attached. */
    method Follow(me: UserId, target: UserId) returns (changed: bool)
      modifies this
      ensures changed == FollowStep(old(follows), me, target).changed
      ensures follows == FollowStep(old(follows), me, target).edges
      ensures favorites == old(favorites)
      ensures changed <==> me != target && !old(IsFollowing(me, target))
      ensures IsFollowing(me, target) <==> me != target || old(IsFollowing(me, target))
      ensures NoSelfFollow(old(follows)) ==> NoSelfFollow(follows)
    {
      var exist := IsFollowing(me, target);
      var itsMe := me == target;
      if exist || itsMe {
        changed := false;
      } else {
        follows := follows + {(me, target)};
        changed := true;
      }
    }

    /** unfollow: detach (me, target) when it exists and target is not me; answer whether it was detached. */
    method Unfollow(me: UserId, target: UserId) returns (changed: bool)
      modifies this
      ensures changed == UnfollowStep(old(follows), me, target).changed
      ensures follows == UnfollowStep(old(follows), me, target).edges
      ensures favorites == old(favorites)
      ensures changed <==> me != target && old(IsFollowing(me, target))
      ensures IsFollowing(me, target) <==> me == target && old(IsFollowing(me, target))
      ensures NoSelfFollow(old(follows)) ==> NoSelfFollow(follows)
    {
      var exist := IsFollowing(me, target);
      var itsMe := me == target;
      if exist && !itsMe {
        follows := follows - {(me, target)};
        changed := true;
      } else {
        changed := false;
      }
    }

    /** favorite: attach (me, post) unless it exists; answer whether it was attached. */
    method Favorite(me: UserId, post: PostId) returns (changed: bool)
      modifies this
      ensures changed == FavoriteStep(old(favorites), me, post).changed
      ensures favorites == FavoriteStep(old(favorites), me, post).edges
      ensures follows == old(follows)
      ensures changed <==> !old(IsFavorite(me, post))
      ensures IsFavorite(me, post)
    {
      var exist := IsFavorite(me, post);
      if exist {
        changed := false;
      } else {
        favorites := favorites + {(me, post)};
        changed := true;
      }
    }

    /** unfavorite: detach (me, post) when it exists; answer whether it was detached. */
    method Unfavorite(me: UserId, post: PostId) returns (changed: bool)
      modifies this
      ensures changed == UnfavoriteStep(old(favorites), me, post).changed
      ensures favorites == UnfavoriteStep(old(favorites), me, post).edges
      ensures follows == old(follows)
      ensures changed <==> old(IsFavorite(me, post))
      ensures !IsFavorite(me, post)
    {
      var exist := IsFavorite(me, post);
      if exist {
        favorites := favorites - {(me, post)};
        changed := true;
      } else {
        changed := false;
      }
    }
  }

  /**
   * The follow / unfollow / re-follow sequence between two distinct users,
   * run against a store: each answer and each membership check is what the
   * contracts above predict, and the last follow leaves the same rows as the
   * first.
   */
  method FollowUnfollowRefollow(store: Store, me: UserId, target: UserId)
    requires me != target && !store.IsFollowing(me, target)
    modifies store
    ensures store.IsFollowing(me, target)
    ensures store.follows == old(store.follows) + {(me, target)}
    ensures store.favorites == old(store.favorites)
  {
    var first := store.Follow(me, target);
    assert first && store.IsFollowing(me, target);
    var again := store.Follow(me, target);
    assert !again;
    var gone := store.Unfollow(me, target);
    assert gone && !store.IsFollowing(me, target);
    FollowThenUnfollowRestores(old(store.follows), me, target);
    assert store.follows == old(store.follows);
    var back := store.Follow(me, target);
    assert back;
  }

  /**
   * A new store holds no self-edge, and follow and unfollow keep it that way:
   * after any follow and unfollow on it, nobody follows themself.
   */
  method NewStoreHasNoSelfFollow(me: UserId, target: UserId, other: UserId) returns (store: Store)
    ensures fresh(store)
    ensures NoSelfFollow(store.follows)
    ensures !store.IsFollowing(me, me) && !store.IsFollowing(target, target)
    ensures store.IsFollowing(me, target) <==> me != target
    ensures store.favorites == {}
  {
    store := new Store();
    assert NoSelfFollow(store.follows);
    var first := store.Follow(me, target);
    var self := store.Follow(me, me);
    assert !self;
    var gone := store.Unfollow(target, other);
    assert !gone;
  }
}
