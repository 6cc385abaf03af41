/** `SaveWebUserSettingsView`: for one system role, switch each of the six admin web
    pages on or off according to a boolean in the request. The six
    `update_web_page_*` methods differ only in the request key and the page, so the
    step is modelled once, parameterised by both. */
module WebPageRoles {
  import opened Options
  import opened PyValues

  /** A `Z2HWebPageRoles` row is identified by its role uid and web page uid. */
  datatype RoleKey = RoleKey(role: Value, page: string)

  /** The access rows, with their `is_active` flags (at most one row per pair). */
  type Roles = map<RoleKey, bool>

  /** The row's state: absent, or present with its flag. */
  function Entry(roles: Roles, key: RoleKey): Option<bool> {
    if key in roles then Some(roles[key]) else None
  }

  /** One `update_web_page_*` call. A value equal to True activates the row,
      creating it (with the model's default flag `createdActive`) when missing; a
      value equal to False deactivates an existing row; anything else does nothing. */
  function Toggle(roles: Roles, key: RoleKey, flag: Value, createdActive: bool): (r: Roles)
    ensures EqualsTrue(flag) ==> Entry(r, key) == Some(key in roles || createdActive)
    ensures EqualsFalse(flag) ==> Entry(r, key) == (if key in roles then Some(false) else None)
    ensures !EqualsTrue(flag) && !EqualsFalse(flag) ==> r == roles
    ensures forall k :: k != key ==> Entry(r, k) == Entry(roles, k)
  {
    if EqualsTrue(flag) then
      if key in roles then roles[key := true] else roles[key := createdActive]
    else if EqualsFalse(flag) then
      if key in roles then roles[key := false] else roles
    else roles
  }

  /** Repeating a toggle changes nothing more, unless the first one created the row
      inactive: then the second activates it. */
  lemma ToggleIdempotent(roles: Roles, key: RoleKey, flag: Value, createdActive: bool)
    requires key in roles || createdActive || !EqualsTrue(flag)
    ensures Toggle(Toggle(roles, key, flag, createdActive), key, flag, createdActive) == Toggle(roles, key, flag, createdActive)
  {
  }

  lemma ToggleTwiceActivates(roles: Roles, key: RoleKey, flag: Value)
    requires key !in roles && EqualsTrue(flag)
    ensures Entry(Toggle(roles, key, flag, false), key) == Some(false)
    ensures Entry(Toggle(Toggle(roles, key, flag, false), key, flag, false), key) == Some(true)
  {
  }

  /** Switching a page on and then off leaves a row that exists and is inactive. */
  lemma OnThenOff(roles: Roles, key: RoleKey, createdActive: bool)
    ensures Entry(Toggle(Toggle(roles, key, Bool(true), createdActive), key, Bool(false), createdActive), key) == Some(false)
  {
  }

  /** The request keys, each also the name of its web page. */
  const PageNames: seq<string> := ["users", "products", "orders", "customers", "reports", "settings"]

  /** The web pages by name, with their uids. */
  type Pages = map<string, string>

  /** The request carries the role and a value for every page, and every page exists;
      otherwise the source fails on a missing key or on `None.uid`. */
  predicate CanSave(req: Request, pages: Pages) {
    "systemRoleUid" in req && forall i :: 0 <= i < |PageNames| ==> PageNames[i] in req && PageNames[i] in pages
  }

  /** The toggles for `names`, in order. */
  function ApplyAll(roles: Roles, req: Request, role: Value, pages: Pages, names: seq<string>, createdActive: bool): (r: Roles)
    requires forall i :: 0 <= i < |names| ==> names[i] in req && names[i] in pages
    ensures forall k :: (forall i :: 0 <= i < |names| ==> k != RoleKey(role, pages[names[i]])) ==> Entry(r, k) == Entry(roles, k)
    decreases |names|
  {
    if names == [] then roles
    else ApplyAll(Toggle(roles, RoleKey(role, pages[names[0]]), req[names[0]], createdActive), req, role, pages, names[1..], createdActive)
  }

  /** `SaveWebUserSettingsView.post` */
  function SaveWebUserSettings(roles: Roles, req: Request, pages: Pages, createdActive: bool): (r: Roles)
    requires CanSave(req, pages)
    ensures forall k :: (forall i :: 0 <= i < |PageNames| ==> k != RoleKey(req["systemRoleUid"], pages[PageNames[i]])) ==>
      Entry(r, k) == Entry(roles, k)
  {
    ApplyAll(roles, req, req["systemRoleUid"], pages, PageNames, createdActive)
  }

  /** When the pages have distinct uids, each page's row ends as its own toggle
      leaves it, and rows of other roles or pages are untouched. */
  lemma {:induction false} ApplyAllEffect(roles: Roles, req: Request, role: Value, pages: Pages, names: seq<string>, createdActive: bool)
    requires forall i :: 0 <= i < |names| ==> names[i] in req && names[i] in pages
    requires forall i, j :: 0 <= i < j < |names| ==> pages[names[i]] != pages[names[j]]
    ensures forall i :: 0 <= i < |names| ==>
      Entry(ApplyAll(roles, req, role, pages, names, createdActive), RoleKey(role, pages[names[i]])) ==
      Entry(Toggle(roles, RoleKey(role, pages[names[i]]), req[names[i]], createdActive), RoleKey(role, pages[names[i]]))
    decreases |names|
  {
    if names != [] {
      var key := RoleKey(role, pages[names[0]]);
      var next := Toggle(roles, key, req[names[0]], createdActive);
      var rest := names[1..];
      ApplyAllEffect(next, req, role, pages, rest, createdActive);
      forall i | 0 <= i < |names|
        ensures Entry(ApplyAll(roles, req, role, pages, names, createdActive), RoleKey(role, pages[names[i]])) ==
                Entry(Toggle(roles, RoleKey(role, pages[names[i]]), req[names[i]], createdActive), RoleKey(role, pages[names[i]]))
      {
        var k := RoleKey(role, pages[names[i]]);
        if i == 0 {
          assert forall j :: 0 <= j < |rest| ==> k != RoleKey(role, pages[rest[j]]) by {
            forall j | 0 <= j < |rest|
              ensures k != RoleKey(role, pages[rest[j]])
            {
              assert rest[j] == names[j + 1];
            }
          }
        } else {
          assert names[i] == rest[i - 1];
          assert k != key;
        }
      }
    }
  }

  /** The view's effect, page by page. */
  lemma SaveWebUserSettingsEffect(roles: Roles, req: Request, pages: Pages, createdActive: bool)
    requires CanSave(req, pages)
    requires forall i, j :: 0 <= i < j < |PageNames| ==> pages[PageNames[i]] != pages[PageNames[j]]
    ensures var r := SaveWebUserSettings(roles, req, pages, createdActive);
      var role := req["systemRoleUid"];
      (forall i :: 0 <= i < |PageNames| ==>
        Entry(r, RoleKey(role, pages[PageNames[i]])) ==
        Entry(Toggle(roles, RoleKey(role, pages[PageNames[i]]), req[PageNames[i]], createdActive), RoleKey(role, pages[PageNames[i]]))) &&
      (forall k :: (forall i :: 0 <= i < |PageNames| ==> k != RoleKey(role, pages[PageNames[i]])) ==> Entry(r, k) == Entry(roles, k))
  {
    ApplyAllEffect(roles, req, req["systemRoleUid"], pages, PageNames, createdActive);
  }
}
