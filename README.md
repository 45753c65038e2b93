# User-management page: cached user list and form state

This project models the client side of a small user-management application.
A single page fetches all users from a REST API and keeps them as an
in-memory list. The page has a create form, an update form and a delete
button per row. After each successful request it changes its local list
without fetching again:

- a load shows the server's list in reverse order;
- a create puts the record the server returned in front of the list;
- an update patches `name` and `email` of the entries with the submitted `id`;
- a delete filters out the entries with the given `id`.

A failed request leaves the list as it was. Both forms are cleared in a
`finally` block, so they are cleared after a success and after a failure.

The model has four modules:

- `Users` (users.dfy): the `User` record and the pure list transformations
  `Reverse`, `Prepend`, `PatchById` and `RemoveById`. Lemmas cover
  idempotence, "nothing else changes", order preservation, the preservation
  of unique ids, and how the operations combine.
- `FormSchema` (form_schema.dfy): the values each form submits and the
  minimum-length `name` rule shared by both schemas.
- `HomePage` (home.dfy): class `Home`, which holds `users`, `createForm` and
  `updateForm`. It has one method per handler (`FetchData`, `CreateUser`,
  `UpdateUserDb`, `DeleteUser`), and `Mount` renders the page and runs the
  fetch effect. Each network request is a parameter: the response body
  (`Option`) or a success flag (`bool`).
- `Wrappers` (wrappers.dfy): `Option`.

The order that `RemoveById` keeps is stated as a characterisation. The
result is an order-preserving selection (`IsSubsequence`) of the list, and
no entry in it carries the id. `RemoveByIdIsLongestAvoiding` proves that no
other such selection is as long. So the filter drops exactly the matching
entries and keeps the original order of the rest.

## Model

| member | source | states |
|---|---|---|
| `Users.Reverse` | frontend/src/pages/index.tsx:66 | the loaded list has the server's length and holds at position k the server's entry at position n-1-k |
| `Users.ReverseSameRecords` | frontend/src/pages/index.tsx:66 | reversing keeps exactly the server's records with their multiplicities |
| `Users.ReverseInvolutive` | frontend/src/pages/index.tsx:66 | reversing the displayed list again gives back the server's order |
| `Users.ReverseUniqueIds` | frontend/src/pages/index.tsx:66 | a server list with unique ids is displayed with unique ids |
| `Users.Prepend` | frontend/src/pages/index.tsx:88 | after a create the list is one longer: the returned record first, then the previous list unchanged and in order |
| `Users.PrependUniqueIds` | frontend/src/pages/index.tsx:88 | prepending a record whose id is not yet listed keeps ids unique |
| `Users.PatchById` | frontend/src/pages/index.tsx:113-120 | an update keeps the length, the order and every id; an entry whose id matches becomes exactly (id, new name, new email); every other entry is unchanged |
| `Users.PatchByIdNoMatch` | frontend/src/pages/index.tsx:113-120 | an update for an id that no entry has leaves the list unchanged |
| `Users.PatchByIdIdempotent` | frontend/src/pages/index.tsx:113-120 | applying the same update twice gives the same list as applying it once |
| `Users.PatchByIdUniqueIds` | frontend/src/pages/index.tsx:113-120 | an update keeps ids unique |
| `Users.RemoveById` | frontend/src/pages/index.tsx:135 | a delete leaves no entry with the id, removes no entry with another id, adds nothing, and keeps the rest in their relative order |
| `Users.RemoveByIdNoMatch` | frontend/src/pages/index.tsx:135 | deleting an id that no entry has leaves the list unchanged |
| `Users.RemoveByIdIdempotent` | frontend/src/pages/index.tsx:135 | deleting the same id a second time changes nothing |
| `Users.AvoidingSubsequenceBound` | frontend/src/pages/index.tsx:135 | no order-preserving selection of entries without the id is longer than the filtered list |
| `Users.RemoveByIdIsLongestAvoiding` | frontend/src/pages/index.tsx:135 | the filtered list is the only longest order-preserving selection of entries without the id |
| `Users.RemoveByIdUniqueIds` | frontend/src/pages/index.tsx:135 | a delete keeps ids unique |
| `Users.PrependThenRemove` | frontend/src/pages/index.tsx:88 | deleting the id of a just-created record whose id was fresh restores the previous list |
| `Users.PatchAfterRemove` | frontend/src/pages/index.tsx:113-135 | updating an id that was just deleted changes nothing |
| `Users.RemoveAfterPatch` | frontend/src/pages/index.tsx:113-135 | deleting an id after updating it gives the same list as deleting it directly |
| `FormSchema.Check` | frontend/src/pages/index.tsx:39-41 | a string passes a minimum-length rule exactly when its length reaches the minimum; otherwise it fails with the rule's message |
| `FormSchema.NameRulesAgree` | frontend/src/pages/index.tsx:38-55 | the create and update schemas accept a name exactly when it has at least 3 characters, and they agree on every name |
| `HomePage.Home.constructor` | frontend/src/pages/index.tsx:57-59 | the page starts with an empty list, an empty create form, and an update form seeded from the props (`id` unset when the prop is 0) |
| `HomePage.Home.FetchData` | frontend/src/pages/index.tsx:63-71 | on success the list is the server's list reversed, with the same records, and unique ids stay unique; on failure the list is unchanged |
| `HomePage.Home.CreateUser` | frontend/src/pages/index.tsx:85-98 | on success the returned record is prepended and returned; on failure the list is unchanged and nothing is returned; either way the create form is ("", "") |
| `HomePage.Home.UpdateUserDb` | frontend/src/pages/index.tsx:110-130 | on success the list is patched by `values.id`; on failure it is unchanged; unique ids stay unique; either way the update form is (0, "", "") |
| `HomePage.Home.DeleteUser` | frontend/src/pages/index.tsx:132-141 | on success the entries with `userId` are filtered out and none remains; on failure the list is unchanged; unique ids stay unique |
| `HomePage.Mount` | frontend/src/pages/index.tsx:57-74 | after mounting, the list is the server's list reversed, or empty if the fetch failed |

## Left out

- Network requests (axios), toasts, `console.error` and React's rendering and hook scheduling are not modelled. Each request is reduced to its outcome, which is a parameter of the handler. The handlers' `values` arguments are the request bodies and affect the list only as the code shows.
- The backend (backend/index.js) is not part of this model. Its routes pass straight through to the ORM, so what the server returns is an input here.
- Email validation (`z.string().email`) and `z.coerce.number()` for the update form's `id` belong to the validation library and are not modelled. `id` is an unbounded integer here, with no NaN or fractional values.
- The wiring of each form to its handler through `handleSubmit`, and the submit-button enabling rule in FormCreateUser.tsx and FormUpdateUser.tsx, depend on the form library's internal state and are not modelled. The handlers are modelled as callable with any values.
- `FormSchema.Check`: measures length in Dafny characters. The validation library counts UTF-16 code units, so the two differ for characters outside the Basic Multilingual Plane.
- Concurrency is not modelled. Overlapping requests each capture the same `users` list, and that stale capture can lose updates. The model runs the handlers one after another.
- `Array.prototype.reverse` also reverses the response array in place. Only the list the page keeps is modelled.
- The update form's initial `id` comes from `id || undefined`. The model takes the prop as an integer and leaves the field unset when the prop is 0. An absent prop is not modelled separately from 0.
