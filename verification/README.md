# Social graph of the microposts application

This project models the relationship logic of the User model in a small
microblogging application. Users follow other users and mark posts as
favorites. A user's feed shows their own posts and the posts of the users they
follow.

Two junction tables hold the relationships, and the model keeps each one as a
set of id pairs:

- `user_follow` holds rows `(user_id, follow_id)`.
- `favorites` holds rows `(user_id, micropost_id)`.

The four mutators use a check-then-act pattern:

- `follow` refuses a duplicate edge and a self-follow.
- `unfollow` detaches only an existing edge that is not a self-edge.
- `favorite` refuses only a duplicate.
- `unfavorite` detaches only an existing row.

Each mutator answers `true` exactly when it changed the table.

The project has three modules:

- `Graph` (graph.dfy) holds the tables as values. It defines the queries `Followings`, `Followers` and `FavoritesOf`. It also defines one step function per mutator, which gives the answer and the resulting table. The lemmas about them are here too: round trips, idempotence, the no-self-follow invariant, both directions of the follow table, and counts.
- `Feed` (feed.dfy) holds what `feed_microposts` computes. That is the list of author ids (the plucked followings with the user's own id appended), its meaning as a set, and the `whereIn('user_id', …)` filter over posts.
- `Users` (users.dfy) holds the class `Store`. Its two fields are the two tables. Its methods perform follow, unfollow, favorite and unfavorite in place, with the same check-then-act as the PHP. Each method is specified by the matching step function of `Graph` and says that the other table is untouched.

Ids are unbounded integers. The PHP code compares `$this->id == $userId`, which is an equality of ids.

## Model

| member | source | states |
|---|---|---|
| Graph.Followings | app/Models/User.php:62-65 | v is a following of u exactly when the row (u, v) is in `user_follow` |
| Graph.Followers | app/Models/User.php:70-73 | v is a follower of u exactly when the row (v, u) is in `user_follow`: the same table read the other way |
| Graph.FavoritesOf | app/Models/User.php:125-128 | p is a favorite of u exactly when the row (u, p) is in `favorites` |
| Graph.FollowStep | app/Models/User.php:79-90 | answers true exactly when target is not me and not already followed; afterwards target is followed iff it was or the call succeeded; no other edge changes |
| Graph.UnfollowStep | app/Models/User.php:96-107 | answers true exactly when the edge exists and target is not me; afterwards the edge exists only if the call was refused and it existed before; no other edge changes |
| Graph.FavoriteStep | app/Models/User.php:131-141 | answers true exactly when the post was not yet a favorite (no self-reference check); afterwards it is a favorite; no other row changes |
| Graph.UnfavoriteStep | app/Models/User.php:143-153 | answers true exactly when the post was a favorite; afterwards it is not; no other row changes |
| Graph.FollowersAreInverseOfFollowings | app/Models/User.php:62-73 | v is among u's followers iff u is among v's followings |
| Graph.FollowRefusedKeepsTable | app/Models/User.php:81-85 | a self-follow or a duplicate follow answers false and leaves the table identical |
| Graph.FollowAddsOneEdge | app/Models/User.php:86-89 | otherwise follow answers true and the new table is the old one plus exactly (me, target), which was absent |
| Graph.FollowKeepsNoSelfFollow | app/Models/User.php:82-84 | if no self-edge exists, follow and unfollow keep it that way, so is_following(me) stays false for me |
| Graph.UnfollowGuardOnlyChecksEdge | app/Models/User.php:98-101 | without self-edges, unfollow succeeds exactly when the edge exists |
| Graph.FollowThenUnfollowRestores | app/Models/User.php:79-107 | after a successful follow, unfollow answers true and restores the original table exactly |
| Graph.UnfollowThenFollowRestores | app/Models/User.php:79-107 | after a successful unfollow, follow answers true and restores the original table exactly |
| Graph.FollowTwiceIsRefused | app/Models/User.php:81-85 | a second follow of the same target answers false and changes nothing |
| Graph.UnfollowWithoutEdgeIsRefused | app/Models/User.php:104-106 | unfollowing a user not followed answers false and leaves the table identical |
| Graph.FollowUpdatesBothDirections | app/Models/User.php:62-90 | a successful follow adds target to me's followings and me to target's followers, each count grows by one, and every other user's lists stay the same |
| Graph.UnfollowUpdatesBothDirections | app/Models/User.php:62-73 | a successful unfollow removes target from me's followings and me from target's followers, each count drops by one, and every other user's lists stay the same |
| Graph.FavoriteTwiceIsRefused | app/Models/User.php:133-136 | a second favorite of the same post answers false and changes nothing |
| Graph.FavoriteThenUnfavoriteRestores | app/Models/User.php:131-153 | after a successful favorite, unfavorite answers true and restores the original table exactly |
| Graph.UnfavoriteThenFavoriteRestores | app/Models/User.php:131-153 | after a successful unfavorite, favorite answers true and restores the original table exactly |
| Graph.FavoriteCounts | app/Models/User.php:131-153 | a successful favorite raises the user's favorites count by one; a successful unfavorite lowers it by one |
| Feed.FeedAuthors | app/Models/User.php:116-119 | the feed authors are exactly me and the users me follows; me is always one of them |
| Feed.FeedAuthorIds | app/Models/User.php:118-119 | the id list has one more entry than the plucked followings and holds exactly them and me |
| Feed.WhereIn | app/Models/User.php:120 | keeps a post exactly when its author is in the id list, with every such post's multiplicity unchanged and every other post dropped |
| Feed.FeedPosts | app/Models/User.php:116-121 | the feed holds exactly the posts by me or a followed id; all of me's own posts are in it |
| Feed.FeedAuthorIdsExactlyOnce | app/Models/User.php:118-119 | with no self-edges and a repetition-free pluck, the id list has no duplicates, holds exactly the feed authors, and there is one more author than followings |
| Feed.FeedPostsAreByFeedAuthors | app/Models/User.php:116-121 | a post is in the feed iff its author is me or someone me follows |
| Feed.FollowExtendsFeed | app/Models/User.php:79-90 | a successful follow adds exactly target to me's feed authors and leaves other users' feed authors alone |
| Feed.UnfollowShrinksFeed | app/Models/User.php:96-107 | a successful unfollow removes exactly target from me's feed authors, me stays in them, and other users' feed authors stay the same |
| Users.Store.IsFollowing | app/Models/User.php:110-113 | is_following(target) holds exactly when the row (me, target) is in `user_follow` |
| Users.Store.IsFavorite | app/Models/User.php:158-161 | is_favorite(post) holds exactly when the row (me, post) is in `favorites` |
| Users.Store.Follow | app/Models/User.php:79-90 | the answer and the new `user_follow` are those of FollowStep; `favorites` is untouched; the edge exists afterwards unless target is me; no self-edge is introduced |
| Users.Store.Unfollow | app/Models/User.php:96-107 | the answer and the new `user_follow` are those of UnfollowStep; `favorites` is untouched; no self-edge is introduced |
| Users.Store.Favorite | app/Models/User.php:131-141 | the answer and the new `favorites` are those of FavoriteStep; `user_follow` is untouched; the post is a favorite afterwards |
| Users.Store.Unfavorite | app/Models/User.php:143-153 | the answer and the new `favorites` are those of UnfavoriteStep; `user_follow` is untouched; the post is not a favorite afterwards |
| Users.NewStoreHasNoSelfFollow | app/Models/User.php:79-107 | on new, empty tables, follow and unfollow leave no self-edge: a self-follow is refused and is_following(me) stays false for me |
| Users.FollowUnfollowRefollow | app/Models/User.php:79-113 | follow between distinct users succeeds, a repeat is refused, unfollow succeeds and clears is_following, and a re-follow succeeds again |

## Left out

- Timestamps written by `withTimestamps()` are not modelled. They carry no logic, and the rows are sets of id pairs.
- `loadRelationshipCounts` (app/Models/User.php:55-58) is a framework `loadCount` call. Its counts are the cardinalities of `Followings`, `Followers` and `FavoritesOf`. The lemmas above state how those change.
- `microposts()` (app/Models/User.php:48-51) is a plain `hasMany` relation. The model keeps only a post's author id (`Micropost.userId`).
- Ordering and pagination of the feed are not modelled. They belong to the post query layer, and `whereIn` ignores the order of the id list. `WhereIn` keeps the input order, but no contract states it.
- Lookups that fail (`findOrFail`), controllers, routes, views and authentication are left out. They are framework plumbing.
- The view hides the favorite button when the viewer is the page's `$user` (resources/views/favorites/favorite_button.blade.php:1). That is a presentation check. The model layer does not forbid self-favoriting, so `FavoriteStep` does not either.
- The race between two concurrent requests is not modelled. Both could see "no edge" and both insert. The model is sequential.
- The storage layer does not enforce "no self-follow". `NoSelfFollow` is therefore not an invariant of `Store`. It is a property that follow and unfollow preserve.
- `Store.constructor` builds empty tables. `NewStoreHasNoSelfFollow` uses it as the base case of the no-self-follow property. It models no code in User.php.
- Every id is assumed to name an existing user or post. `followings()`, `followers()` and `favorites()` are `belongsToMany` relations, which join with the `users` and `microposts` tables. So `is_following`, `is_favorite` and the plucked feed ids only see rows whose target exists. When `attach` gets an unknown id, it either raises an integrity error or inserts a row that no later check sees. The join and that failure are not modelled.
