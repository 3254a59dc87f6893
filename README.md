# Posts store and new-post validation, modelled in Dafny

This project models two pieces of a small Redux blog client:

- **The posts reducer** (`PostsReducer`, `posts_reducer.dfy`). The `posts` slice of the
  application state maps post id to post record. The reducer is a pure function from the
  current slice and a dispatched action to the next slice. The model covers every action whose
  fetch payload is well formed (see "## Left out"):
  - `FETCH_POST` upserts the fetched record under its own id and keeps every other entry.
  - `FETCH_POSTS` discards the current slice. It rebuilds the slice from the fetched list
    with `_.mapKeys(list, 'id')`, modelled as a left fold in which a later record overwrites
    an earlier one with the same id.
  - Every other action returns the slice unchanged.
  - When Redux calls the reducer with no state, the state defaults to `{}`.
- **The new-post form's `validate`** (`PostsNewForm`, `posts_new.dfy`). It starts from an empty
  error object. It then adds a fixed message for each of `title`, `categories` and `content`
  that is falsy, meaning absent or the empty string. An empty result lets the form be submitted.
  `Validate` is a method that fills a local map step by step, as the source does. `Errors` is
  a declarative definition of the same object, and the lemmas are stated about it.

The invariant proved about the store is that every entry sits under its own record's id
(`WellKeyed`). Both fetch actions keep it, `FETCH_POSTS` establishes it from any prior state,
and so every state reachable from the initial one has it.

The reducer has no case that creates or deletes a post: `reducer_posts.js` imports only
`FETCH_POSTS` and `FETCH_POST`. So whatever `deletePost` dispatches falls through to the
default case, and the deleted post stays in the slice until the next `FETCH_POSTS` replaces it.

## Model

| member | source | states |
|---|---|---|
| `PostsReducer.MapKeys` | src/reducers/reducer_posts.js:21 | the keys of the rebuilt map are exactly the ids in the list; every entry is under its own record's id; the value under each id is the last record in the list with that id |
| `PostsReducer.Reduce` | src/reducers/reducer_posts.js:4-24 | FETCH_POST: the new keys are the old ones plus the record's id, that id maps to the record, and every other entry is unchanged; FETCH_POSTS: the keys are exactly the list's ids, whatever the prior state, and each value is the last record with that id; any other action: the state is returned unchanged; no state given means `{}` |
| `PostsReducer.InitialStateIsEmpty` | src/reducers/reducer_posts.js:4 | called with no state, the reducer acts on the empty map, so the initial slice is `{}` |
| `PostsReducer.FetchPostIdempotent` | src/reducers/reducer_posts.js:19 | from any prior state, given or undefined, applying FETCH_POST twice with the same record gives the state of applying it once (compared by value) |
| `PostsReducer.FetchPostsReplaces` | src/reducers/reducer_posts.js:20-21 | FETCH_POSTS gives the same result from any two prior states, and its keys are exactly the list's ids (full replace) |
| `PostsReducer.LastRecordWins` | src/reducers/reducer_posts.js:21 | from any prior state, a record that no later record in the list shares its id with is the value FETCH_POSTS stores under that id |
| `PostsReducer.ReducePreservesWellKeyed` | src/reducers/reducer_posts.js:19-23 | FETCH_POST and other actions keep "every key equals its value's id"; FETCH_POSTS establishes it from any prior state |
| `PostsReducer.ReplayWellKeyed` | src/reducers/reducer_posts.js:4-24 | applying the reducer to any sequence of actions, starting from a well-keyed state, ends in a well-keyed state |
| `PostsReducer.ReachableStatesWellKeyed` | src/reducers/reducer_posts.js:4-24 | every state reached from the initial (undefined) state by any sequence of actions is well keyed |
| `PostsNewForm.Validate` | src/components/posts_new.js:58-75 | each of title, categories and content has an error exactly when it is absent or empty, with its fixed message; no other key appears; the result is empty exactly when all three are filled in; the result equals the declarative `Errors` |
| `PostsNewForm.AtMostThreeErrors` | src/components/posts_new.js:59-74 | the error object never has more than three entries |
| `PostsNewForm.ValidIffAllFilled` | src/components/posts_new.js:59-74 | the error object is empty, so the form may be submitted, exactly when all three fields are non-empty |
| `PostsNewForm.ErrorDependsOnlyOnOwnField` | src/components/posts_new.js:62-70 | whether a field has an error, and its message, depend only on that field's own value |

## Left out

- Post ids are strings. The model does not capture how JavaScript turns an id into an object key, nor the order in which an object lists its keys.
- `_.mapKeys` also accepts an object instead of an array. The model takes the payload of FETCH_POSTS to be an ordered list of records.
- The action creators `fetchPosts`, `fetchPost` and `deletePost` are not part of this model. They are HTTP calls whose code is not available. Their completions can arrive in any order; this asynchronous ordering is network behaviour and is not modelled.
- Redux's store and dispatch loop are not modelled. `Replay` only applies the reducer to a list of actions in order.
- The React components are user interface over a framework and are not modelled. This covers rendering, `componentDidMount`, `renderField`, `connect` and `mapStateToProps`, navigation after a delete, and the `reduxForm` wiring.
- `validate` tests JavaScript falsiness. The model takes form values to be strings, so a field is falsy when it is absent or empty. Other falsy JavaScript values (`null`, `0`, `false`) are outside the model.
- States are compared by value. The default case returns the very object it was given, while FETCH_POST and FETCH_POSTS always build a new object, even when its contents equal the old ones. The model does not capture this difference in reference identity.
- FetchPostIdempotent: holds by value only, because states are compared by value. A subscriber comparing by reference still sees a change after a repeated FETCH_POST.
- The model assumes every FETCH_POST and FETCH_POSTS action carries `payload.data`, and that every record in it has an `id`. Neither failure case is modelled. When `data` is missing, FETCH_POST reads `.id` of undefined and throws, so the reducer is not total there; FETCH_POSTS hands undefined to `_.mapKeys`, which yields `{}` and wipes the slice. A record without an `id` is stored under the key "undefined".
