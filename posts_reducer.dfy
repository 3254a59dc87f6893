/**
 The `posts` slice of the application state: a map from post id to post
 record, and the reducer that computes the next slice from the current one
 and a dispatched action. The reducer is a pure function; the model takes
 every fetch action to carry its records, each with an id.
 */
module PostsReducer {

  /** The reducer's state argument is undefined on the first call. */
  datatype Option<T> = None | Some(value: T) {
    function GetOr(default: T): T {
      match this
      case Some(v) => v
      case None => default
    }
  }

  /** Post ids are assigned by the server and used as object keys. */
  type Id = string

  /** A post record as the API returns it; the reducer reads only `id`. */
  datatype Post = Post(id: Id, title: string, categories: string, content: string)

  /** The slice: post id to post record. */
  type State = map<Id, Post>

  /**
   The actions the reducer tells apart by their `type`: FETCH_POST carries one
   record, FETCH_POSTS a list of records. Every other action type (the one
   dispatched by deletePost among them) is `Other`.
   */
  datatype Action =
    | FetchPost(post: Post)
    | FetchPosts(posts: seq<Post>)
    | Other

  /** The state a reducer call starts from: the given one, or `{}` when undefined. */
  function Current(state: Option<State>): State {
    state.GetOr(map[])
  }

  /** Every entry is stored under its own record's id. */
  ghost predicate WellKeyed(s: State) {
    forall k :: k in s ==> s[k].id == k
  }

  /** The ids occurring in a list of records. */
  ghost function IdsOf(rs: seq<Post>): set<Id> {
    set r | r in rs :: r.id
  }

  /** `p` is the last record of `rs` whose id is `k`. */
  ghost predicate IsLastWithId(rs: seq<Post>, k: Id, p: Post) {
    exists i :: 0 <= i < |rs| && rs[i] == p && p.id == k &&
      forall j :: i < j < |rs| ==> rs[j].id != k
  }

  /**
   `_.mapKeys(records, 'id')`: a left fold over the records that writes each
   record under its own id, so that a later record overwrites an earlier one
   with the same id. Nothing from any earlier state takes part.
   */
  function MapKeys(rs: seq<Post>): (m: State)
    ensures m.Keys == IdsOf(rs)
    ensures WellKeyed(m)
    ensures forall k :: k in m ==> IsLastWithId(rs, k, m[k])
    decreases |rs|
  {
    if rs == [] then map[]
    else
      var init, last := rs[..|rs| - 1], rs[|rs| - 1];
      assert rs == init + [last];
      var m := MapKeys(init)[last.id := last];
      assert forall k :: k in m && k != last.id ==> IsLastWithId(rs, k, m[k]) by {
        forall k | k in m && k != last.id
          ensures IsLastWithId(rs, k, m[k])
        {
          LastWithIdExtends(init, last, k, m[k]);
        }
      }
      assert IsLastWithId(rs, last.id, last) by {
        assert rs[|rs| - 1] == last;
      }
      m
  }

  /** Appending a record with a different id keeps the last record for `k`. */
  lemma LastWithIdExtends(rs: seq<Post>, last: Post, k: Id, p: Post)
    requires IsLastWithId(rs, k, p) && last.id != k
    ensures IsLastWithId(rs + [last], k, p)
  {
    var i :| 0 <= i < |rs| && rs[i] == p && p.id == k &&
      forall j :: i < j < |rs| ==> rs[j].id != k;
    var rs' := rs + [last];
    assert rs'[i] == p;
    assert forall j :: i < j < |rs'| ==> rs'[j].id != k by {
      forall j | i < j < |rs'|
        ensures rs'[j].id != k
      {
        if j < |rs| {
          assert rs'[j] == rs[j];
        }
      }
    }
  }

  /**
   The reducer. FETCH_POST upserts the record under its id and keeps every
   other entry; FETCH_POSTS discards the state and rebuilds it from the list;
   any other action returns the state unchanged.
   */
  function Reduce(state: Option<State>, action: Action): (next: State)
    ensures action.FetchPost? ==>
      && next.Keys == Current(state).Keys + {action.post.id}
      && next[action.post.id] == action.post
      && forall k :: k in Current(state) && k != action.post.id ==> next[k] == Current(state)[k]
    ensures action.FetchPosts? ==>
      && next.Keys == IdsOf(action.posts)
      && forall k :: k in next ==> IsLastWithId(action.posts, k, next[k])
    ensures action.Other? ==> next == Current(state)
  {
    var s := Current(state);
    match action
    case FetchPost(p) => s[p.id := p]
    case FetchPosts(rs) => MapKeys(rs)
    case Other => s
  }

  /** Called with no state, the reducer behaves as if given `{}`. */
  lemma InitialStateIsEmpty(action: Action)
    ensures Reduce(None, action) == Reduce(Some(map[]), action)
    ensures Reduce(None, Other) == map[]
  {
  }

  /** Fetching the same post twice in a row leaves the state of fetching it once. */
  lemma FetchPostIdempotent(state: Option<State>, p: Post)
    ensures Reduce(Some(Reduce(state, FetchPost(p))), FetchPost(p)) == Reduce(state, FetchPost(p))
  {
  }

  /** FETCH_POSTS replaces the state: the result does not depend on the prior state. */
  lemma FetchPostsReplaces(s1: Option<State>, s2: Option<State>, rs: seq<Post>)
    ensures Reduce(s1, FetchPosts(rs)) == Reduce(s2, FetchPosts(rs))
    ensures Reduce(s1, FetchPosts(rs)).Keys == IdsOf(rs)
  {
  }

  /**
   When several records share an id, the one FETCH_POSTS keeps is the last of
   them: a record that no later record shares its id with is the value
   stored under that id.
   */
  lemma LastRecordWins(state: Option<State>, rs: seq<Post>, i: nat)
    requires i < |rs|
    requires forall j :: i < j < |rs| ==> rs[j].id != rs[i].id
    ensures rs[i].id in Reduce(state, FetchPosts(rs))
    ensures Reduce(state, FetchPosts(rs))[rs[i].id] == rs[i]
  {
    var m, k := Reduce(state, FetchPosts(rs)), rs[i].id;
    assert k in IdsOf(rs);
    var i' :| 0 <= i' < |rs| && rs[i'] == m[k] && m[k].id == k &&
      forall j :: i' < j < |rs| ==> rs[j].id != k;
    assert i' == i;
  }

  /**
   Both fetch actions keep every entry under its own record's id, FETCH_POSTS
   whatever the prior state; other actions keep the state as it is.
   */
  lemma ReducePreservesWellKeyed(state: Option<State>, action: Action)
    requires WellKeyed(Current(state)) || action.FetchPosts?
    ensures WellKeyed(Reduce(state, action))
  {
    var next := Reduce(state, action);
    match action
    case FetchPost(p) =>
      forall k | k in next ensures next[k].id == k {
        if k != p.id {
          assert next[k] == Current(state)[k];
        }
      }
    case FetchPosts(rs) =>
    case Other =>
  }

  /** The state after the reducer has been applied to each action in turn. */
  function Replay(state: Option<State>, actions: seq<Action>): State
    decreases |actions|
  {
    if actions == [] then Current(state)
    else Replay(Some(Reduce(state, actions[0])), actions[1..])
  }

  /** Every state reached from the initial state is well keyed. */
  lemma {:induction false} ReplayWellKeyed(state: Option<State>, actions: seq<Action>)
    requires WellKeyed(Current(state))
    ensures WellKeyed(Replay(state, actions))
    decreases |actions|
  {
    if actions != [] {
      ReducePreservesWellKeyed(state, actions[0]);
      ReplayWellKeyed(Some(Reduce(state, actions[0])), actions[1..]);
    }
  }

  /** The store starts undefined, so whatever is dispatched, every entry is under its record's id. */
  lemma ReachableStatesWellKeyed(actions: seq<Action>)
    ensures WellKeyed(Replay(None, actions))
  {
    ReplayWellKeyed(None, actions);
  }
}
