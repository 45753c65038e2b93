/**
 * The state of the user-management page: its cached list of users and the
 * two forms, with one method per event handler. Each network request is
 * reduced to its outcome, passed in as a parameter: the response body on
 * success and `None` (or `false`) when the request threw.
 */
module HomePage {
  import opened Wrappers
  import opened Users
  import opened FormSchema

  /** The fields of the update form; `id` is `None` while the field is unset. */
  datatype UpdateForm = UpdateForm(id: Option<int>, name: string, email: string)

  /** The create form's value after it is cleared. */
  const ClearedCreateForm := CreateValues("", "")

  /** The update form's value after it is cleared. */
  const ClearedUpdateForm := UpdateForm(Some(0), "", "")

  class Home {
    /** The users shown on the page, most recently prepended first. */
    var users: seq<User>
    /** The current field values of the create form. */
    var createForm: CreateValues
    /** The current field values of the update form. */
    var updateForm: UpdateForm

    /**
     * The page as first rendered from its props: an empty list, an empty
     * create form, and an update form seeded by `id || undefined`,
     * `name || ""` and `email || ""`.
     */
    constructor (id: int, name: string, email: string)
      ensures users == []
      ensures createForm == CreateValues("", "")
      ensures updateForm == UpdateForm(if id == 0 then None else Some(id), name, email)
    {
      users := [];
      createForm := CreateValues("", "");
      updateForm := UpdateForm(if id == 0 then None else Some(id), name, email);
    }

    /** Handles the response of `GET /users`: the list becomes the server's list reversed. */
    method FetchData(response: Option<seq<User>>)
      modifies this`users
      ensures response.Some? ==> users == Reverse(response.value)
      ensures response.Some? ==> multiset(users) == multiset(response.value)
      ensures response.Some? && UniqueIds(response.value) ==> UniqueIds(users)
      ensures response.None? ==> users == old(users)
    {
      if response.Some? {
        users := Reverse(response.value);
        ReverseSameRecords(response.value);
        if UniqueIds(response.value) {
          ReverseUniqueIds(response.value);
        }
      }
    }

    /**
     * Handles a submitted create form: on success the returned record is put
     * in front of the list and returned; either way the form is cleared.
     * `values` is the request body only; the list takes the server's record.
     */
    method CreateUser(values: CreateValues, response: Option<User>) returns (created: Option<User>)
      modifies this`users, this`createForm
      ensures created == response
      ensures response.Some? ==> users == Prepend(response.value, old(users))
      ensures response.None? ==> users == old(users)
      ensures createForm == ClearedCreateForm
    {
      created := None;
      if response.Some? {
        users := Prepend(response.value, users);
        created := response;
      }
      createForm := createForm.(name := "");
      createForm := createForm.(email := "");
    }

    /**
     * Handles a submitted update form: on success the entries with
     * `values.id` get its name and email; either way the form is cleared.
     */
    method UpdateUserDb(values: UpdateValues, ok: bool)
      modifies this`users, this`updateForm
      ensures ok ==> users == PatchById(old(users), values.id, values.name, values.email)
      ensures !ok ==> users == old(users)
      ensures UniqueIds(old(users)) ==> UniqueIds(users)
      ensures updateForm == ClearedUpdateForm
    {
      if ok {
        if UniqueIds(users) {
          PatchByIdUniqueIds(users, values.id, values.name, values.email);
        }
        users := PatchById(users, values.id, values.name, values.email);
      }
      updateForm := updateForm.(id := Some(0));
      updateForm := updateForm.(name := "");
      updateForm := updateForm.(email := "");
    }

    /** Handles a delete click: on success the entries with `userId` are dropped. */
    method DeleteUser(userId: int, ok: bool)
      modifies this`users
      ensures ok ==> users == RemoveById(old(users), userId)
      ensures !ok ==> users == old(users)
      ensures ok ==> NoEntryWithId(users, userId)
      ensures UniqueIds(old(users)) ==> UniqueIds(users)
    {
      if ok {
        if UniqueIds(users) {
          RemoveByIdUniqueIds(users, userId);
        }
        users := RemoveById(users, userId);
      }
    }
  }

  /**
   * The page mounting: it is rendered from its props and its effect fetches
   * the list once. A failed fetch leaves the list empty.
   */
  method Mount(id: int, name: string, email: string, response: Option<seq<User>>) returns (home: Home)
    ensures fresh(home)
    ensures home.users == if response.Some? then Reverse(response.value) else []
    ensures home.createForm == ClearedCreateForm
    ensures home.updateForm == UpdateForm(if id == 0 then None else Some(id), name, email)
  {
    home := new Home(id, name, email);
    home.FetchData(response);
  }
}
