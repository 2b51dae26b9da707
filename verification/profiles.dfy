/** The personal-details screen's list of user profiles: the active user,
    the add/edit form, validated save (create or update), selecting a user,
    and the confirmed delete. */
module UserProfiles {
  import opened Wrappers

  datatype User = User(id: int, name: string, age: string, gender: string, email: string, phone: string)

  /** The add/edit form's fields. */
  datatype Form = Form(name: string, age: string, gender: string, phone: string)

  datatype Profiles = Profiles(
    users: seq<User>,
    activeUserId: int,
    form: Form,
    isEditingMode: bool,
    modalVisible: bool)

  const EmptyForm: Form := Form("", "", "female", "")

  const InitialUsers: seq<User> := [
    User(1, "SAKSHI NISHAD", "22", "female", "sakshi@example.com", "+91 9876543210")]

  const Initial: Profiles := Profiles(InitialUsers, 1, EmptyForm, false, false)

  /* ---------------- Queries ---------------- */

  predicate HasId(users: seq<User>, id: int) {
    exists i :: 0 <= i < |users| && users[i].id == id
  }

  predicate UniqueIds(users: seq<User>) {
    forall i, j :: 0 <= i < j < |users| ==> users[i].id != users[j].id
  }

  /** `users.find(u => u.id === id)`. */
  function FindUser(users: seq<User>, id: int): (r: Option<User>)
    ensures r.None? <==> !HasId(users, id)
    ensures r.Some? ==> exists i :: 0 <= i < |users| && users[i] == r.value && r.value.id == id
                                    && forall j :: 0 <= j < i ==> users[j].id != id
  {
    if |users| == 0 then None
    else if users[0].id == id then Some(users[0])
    else
      var r := FindUser(users[1..], id);
      assert HasId(users, id) ==> HasId(users[1..], id) by {
        if HasId(users, id) {
          var i :| 0 <= i < |users| && users[i].id == id;
          assert users[1..][i - 1] == users[i];
        }
      }
      assert r.Some? ==> exists i :: 0 <= i < |users| && users[i] == r.value && r.value.id == id
                                     && forall j :: 0 <= j < i ==> users[j].id != id by {
        if r.Some? {
          var i :| 0 <= i < |users[1..]| && users[1..][i] == r.value && r.value.id == id
                   && forall j :: 0 <= j < i ==> users[1..][j].id != id;
          assert users[i + 1] == r.value;
          assert forall j :: 1 <= j <= i ==> users[j] == users[1..][j - 1];
        }
      }
      r
  }

  /** The user the screen shows: the one with the active id, else the first. */
  function ActiveUser(p: Profiles): (r: User)
    requires |p.users| > 0
    ensures HasId(p.users, p.activeUserId) ==> r.id == p.activeUserId && r in p.users
    ensures !HasId(p.users, p.activeUserId) ==> r == p.users[0]
    ensures UniqueIds(p.users) && HasId(p.users, p.activeUserId) ==>
              forall i :: 0 <= i < |p.users| && p.users[i].id == p.activeUserId ==> r == p.users[i]
  {
    FindUser(p.users, p.activeUserId).GetOr(p.users[0])
  }

  /** Largest id in a non-empty list. */
  function MaxId(users: seq<User>): (m: int)
    requires |users| > 0
    ensures forall i :: 0 <= i < |users| ==> users[i].id <= m
    ensures HasId(users, m)
  {
    if |users| == 1 then users[0].id
    else
      var rest := MaxId(users[1..]);
      assert forall i :: 1 <= i < |users| ==> users[i] == users[1..][i - 1];
      assert HasId(users, rest) by {
        var i :| 0 <= i < |users[1..]| && users[1..][i].id == rest;
        assert users[i + 1].id == rest;
      }
      if users[0].id >= rest then users[0].id else rest
  }

  /** The id a new profile gets: one more than the largest, or 1 for an empty list. */
  function NextId(users: seq<User>): (id: int)
    ensures !HasId(users, id)
    ensures |users| == 0 ==> id == 1
    ensures |users| > 0 ==> HasId(users, id - 1) && forall i :: 0 <= i < |users| ==> users[i].id < id
  {
    if |users| > 0 then MaxId(users) + 1 else 1
  }

  /* ---------------- Handlers ---------------- */

  /** Opening "add": a blank form with gender "female", in create mode. */
  function OpenAddUserModal(p: Profiles): (r: Profiles)
    ensures r.form.name == "" && r.form.age == "" && r.form.phone == "" && r.form.gender == "female"
    ensures !r.isEditingMode && r.modalVisible
    ensures r.users == p.users && r.activeUserId == p.activeUserId
  {
    p.(form := EmptyForm, isEditingMode := false, modalVisible := true)
  }

  /** Opening "edit": the form holds the active user's fields, in edit mode. */
  function OpenEditUserModal(p: Profiles): (r: Profiles)
    requires |p.users| > 0
    ensures var u := ActiveUser(p);
            r.form.name == u.name && r.form.age == u.age && r.form.gender == u.gender && r.form.phone == u.phone
    ensures r.isEditingMode && r.modalVisible
    ensures r.users == p.users && r.activeUserId == p.activeUserId
  {
    var u := ActiveUser(p);
    p.(form := Form(u.name, u.age, u.gender, u.phone), isEditingMode := true, modalVisible := true)
  }

  /** Overwrites the form fields of a user, keeping its id and email. */
  function ApplyForm(u: User, f: Form): User {
    u.(name := f.name, age := f.age, gender := f.gender, phone := f.phone)
  }

  /** The update branch: every user with the active id takes the form's fields. */
  function UpdateUsers(users: seq<User>, activeId: int, f: Form): (r: seq<User>)
    ensures |r| == |users|
    ensures forall i :: 0 <= i < |users| ==> r[i].id == users[i].id && r[i].email == users[i].email
    ensures forall i :: 0 <= i < |users| && users[i].id != activeId ==> r[i] == users[i]
    ensures forall i :: 0 <= i < |users| && users[i].id == activeId ==>
              r[i].name == f.name && r[i].age == f.age && r[i].gender == f.gender && r[i].phone == f.phone
  {
    seq(|users|, i requires 0 <= i < |users| => if users[i].id == activeId then ApplyForm(users[i], f) else users[i])
  }

  /** Save: refused (nothing changes) while the name or the age is empty;
      otherwise update the active user or append a new one, and close the form. */
  function HandleSaveUser(p: Profiles): (r: Profiles)
    ensures p.form.name == "" || p.form.age == "" ==> r == p
    ensures p.form.name != "" && p.form.age != "" ==> !r.modalVisible && r.form == p.form
    ensures r.isEditingMode == p.isEditingMode
    ensures p.form.name != "" && p.form.age != "" && p.isEditingMode ==>
              r.users == UpdateUsers(p.users, p.activeUserId, p.form) && r.activeUserId == p.activeUserId
    ensures p.form.name != "" && p.form.age != "" && !p.isEditingMode ==>
              |r.users| == |p.users| + 1 && r.users[..|p.users|] == p.users
              && r.activeUserId == r.users[|p.users|].id && !HasId(p.users, r.activeUserId)
              && r.users[|p.users|].id == NextId(p.users)
              && r.users[|p.users|].email == ""
              && ApplyForm(r.users[|p.users|], p.form) == r.users[|p.users|]
  {
    if p.form.name == "" || p.form.age == "" then p
    else if p.isEditingMode then
      p.(users := UpdateUsers(p.users, p.activeUserId, p.form), modalVisible := false)
    else
      var newId := NextId(p.users);
      var newUser := User(newId, p.form.name, p.form.age, p.form.gender, "", p.form.phone);
      assert (p.users + [newUser])[..|p.users|] == p.users;
      p.(users := p.users + [newUser], activeUserId := newId, modalVisible := false)
  }

  /** Tapping a listed user makes it the active one. */
  function SelectUser(p: Profiles, id: int): (r: Profiles)
    ensures r.activeUserId == id && r.users == p.users
    ensures r.form == p.form && r.isEditingMode == p.isEditingMode && r.modalVisible == p.modalVisible
  {
    p.(activeUserId := id)
  }

  /** `users.filter(u => u.id !== id)`. */
  function RemoveId(users: seq<User>, id: int): (r: seq<User>)
    ensures forall u :: u in r <==> u in users && u.id != id
    ensures |r| <= |users|
  {
    if |users| == 0 then []
    else
      var rest := RemoveId(users[1..], id);
      assert forall u :: u in users <==> u == users[0] || u in users[1..];
      if users[0].id == id then rest else [users[0]] + rest
  }

  /** The confirmed delete: refused while at most one user exists; otherwise
      remove the users with that id, and when the active user was removed
      make the first remaining user active. */
  function ConfirmRemoveUser(p: Profiles, id: int): (r: Profiles)
    requires UniqueIds(p.users)
    ensures |p.users| <= 1 ==> r == p
    ensures |p.users| > 1 ==> r.users == RemoveId(p.users, id) && |r.users| > 0
    ensures |p.users| > 1 && p.activeUserId == id ==> r.activeUserId == r.users[0].id
    ensures |p.users| > 1 && p.activeUserId == id ==>
              exists k :: 0 <= k < |p.users| && p.users[k].id != id && r.activeUserId == p.users[k].id
                          && forall j :: 0 <= j < k ==> p.users[j].id == id
    ensures p.activeUserId != id ==> r.activeUserId == p.activeUserId
    ensures r.form == p.form && r.isEditingMode == p.isEditingMode && r.modalVisible == p.modalVisible
  {
    if |p.users| <= 1 then p
    else
      var updatedUsers := RemoveId(p.users, id);
      RemoveIdKeepsOthers(p.users, id);
      RemoveIdFirstKept(p.users, id);
      if p.activeUserId == id then p.(users := updatedUsers, activeUserId := updatedUsers[0].id)
      else p.(users := updatedUsers)
  }

  /** Removal works user by user in list order: removing from a
      concatenation is removing from each part, the kept users keeping their order. */
  lemma {:induction false} RemoveIdAppend(a: seq<User>, b: seq<User>, id: int)
    ensures RemoveId(a + b, id) == RemoveId(a, id) + RemoveId(b, id)
  {
    if |a| > 0 {
      var ab := a + b;
      assert ab[0] == a[0] && ab[1..] == a[1..] + b;
      RemoveIdAppend(a[1..], b, id);
      var head := if a[0].id == id then [] else [a[0]];
      assert RemoveId(ab, id) == head + RemoveId(ab[1..], id);
      assert RemoveId(a, id) == head + RemoveId(a[1..], id);
    } else {
      assert a + b == b;
    }
  }

  /** The first user kept is the first one in the list whose id differs. */
  lemma {:induction false} RemoveIdFirstKept(users: seq<User>, id: int)
    ensures forall k :: 0 <= k < |users| && users[k].id != id && (forall j :: 0 <= j < k ==> users[j].id == id) ==>
              |RemoveId(users, id)| > 0 && RemoveId(users, id)[0] == users[k]
  {
    if |users| > 0 {
      RemoveIdFirstKept(users[1..], id);
      forall k | 0 <= k < |users| && users[k].id != id && (forall j :: 0 <= j < k ==> users[j].id == id)
        ensures |RemoveId(users, id)| > 0 && RemoveId(users, id)[0] == users[k]
      {
        if k > 0 {
          assert users[1..][k - 1] == users[k];
          assert forall j :: 0 <= j < k - 1 ==> users[1..][j] == users[j + 1];
        }
      }
    }
  }

  /** Removing an id keeps the remaining ids unique. */
  lemma {:induction false} RemoveIdKeepsUnique(users: seq<User>, id: int)
    requires UniqueIds(users)
    ensures UniqueIds(RemoveId(users, id))
  {
    if |users| > 0 {
      var rest := users[1..];
      TailUnique(users);
      RemoveIdKeepsUnique(rest, id);
      if users[0].id != id {
        var rr := RemoveId(rest, id);
        var r := [users[0]] + rr;
        forall i, j | 0 <= i < j < |r| ensures r[i].id != r[j].id {
          if i == 0 {
            assert r[j] == rr[j - 1];
            HeadIdNotInTail(users, r[j]);
          } else {
            assert r[i] == rr[i - 1] && r[j] == rr[j - 1];
          }
        }
      }
    }
  }

  lemma TailUnique(users: seq<User>)
    requires |users| > 0 && UniqueIds(users)
    ensures UniqueIds(users[1..])
  {
    forall i, j | 0 <= i < j < |users[1..]| ensures users[1..][i].id != users[1..][j].id {
      assert users[1..][i] == users[i + 1] && users[1..][j] == users[j + 1];
    }
  }

  lemma HeadIdNotInTail(users: seq<User>, u: User)
    requires |users| > 0 && UniqueIds(users) && u in users[1..]
    ensures u.id != users[0].id
  {
    var k :| 0 <= k < |users[1..]| && users[1..][k] == u;
    assert users[k + 1] == u;
  }

  /** With unique ids, removing an id drops exactly one user when it is present. */
  lemma {:induction false} RemoveIdCount(users: seq<User>, id: int)
    requires UniqueIds(users)
    ensures |RemoveId(users, id)| == |users| - (if HasId(users, id) then 1 else 0)
  {
    if |users| > 0 {
      var rest := users[1..];
      TailUnique(users);
      RemoveIdCount(rest, id);
      assert HasId(users, id) <==> users[0].id == id || HasId(rest, id) by {
        if HasId(users, id) && users[0].id != id {
          var i :| 0 <= i < |users| && users[i].id == id;
          assert rest[i - 1] == users[i];
        }
        if HasId(rest, id) {
          var i :| 0 <= i < |rest| && rest[i].id == id;
          assert users[i + 1] == rest[i];
        }
      }
      if users[0].id == id {
        assert !HasId(rest, id) by {
          forall i | 0 <= i < |rest| ensures rest[i].id != id {
            assert rest[i] == users[i + 1];
          }
        }
      }
    }
  }

  /** With unique ids, removing one id from two or more users leaves at least one. */
  lemma RemoveIdKeepsOthers(users: seq<User>, id: int)
    requires UniqueIds(users)
    ensures UniqueIds(RemoveId(users, id))
    ensures |RemoveId(users, id)| == |users| - (if HasId(users, id) then 1 else 0)
  {
    RemoveIdKeepsUnique(users, id);
    RemoveIdCount(users, id);
  }

  /* ---------------- Invariant ---------------- */

  /** Unique ids, at least one user, and an active id that resolves. */
  ghost predicate Valid(p: Profiles) {
    && |p.users| > 0
    && UniqueIds(p.users)
    && HasId(p.users, p.activeUserId)
  }

  /** The user events the screen offers. */
  datatype Event = OpenAdd | OpenEdit | Save | Select(id: int) | Remove(id: int)

  function Step(p: Profiles, e: Event): Profiles
    requires Valid(p)
  {
    match e
    case OpenAdd => OpenAddUserModal(p)
    case OpenEdit => OpenEditUserModal(p)
    case Save => HandleSaveUser(p)
    case Select(id) => SelectUser(p, id)
    case Remove(id) => ConfirmRemoveUser(p, id)
  }

  lemma InitialIsValid()
    ensures Valid(Initial)
  {
    assert Initial.users[0].id == 1;
  }

  /** Every event keeps the ids unique, the list non-empty and the active id
      resolving (a user can only be selected from the list). */
  lemma StepKeepsValid(p: Profiles, e: Event)
    requires Valid(p)
    requires e.Select? ==> HasId(p.users, e.id)
    ensures Valid(Step(p, e))
  {
    match e
    case OpenAdd =>
    case OpenEdit =>
    case Save => SaveKeepsValid(p);
    case Select(id) =>
    case Remove(id) => RemoveKeepsValid(p, id);
  }

  lemma SaveKeepsValid(p: Profiles)
    requires Valid(p)
    ensures Valid(HandleSaveUser(p))
  {
    var r := HandleSaveUser(p);
    if p.form.name != "" && p.form.age != "" {
      if p.isEditingMode {
        var i :| 0 <= i < |p.users| && p.users[i].id == p.activeUserId;
        assert r.users[i].id == p.activeUserId;
      } else {
        var n := |p.users|;
        assert r.users[n].id == r.activeUserId;
        forall i, j | 0 <= i < j < |r.users| ensures r.users[i].id != r.users[j].id {
          if j < n {
            assert r.users[i] == p.users[i] && r.users[j] == p.users[j];
          } else {
            assert r.users[i] == p.users[i];
          }
        }
      }
    }
  }

  lemma RemoveKeepsValid(p: Profiles, id: int)
    requires Valid(p)
    ensures Valid(ConfirmRemoveUser(p, id))
  {
    var r := ConfirmRemoveUser(p, id);
    if |p.users| > 1 {
      RemoveIdKeepsOthers(p.users, id);
      if p.activeUserId != id {
        var i :| 0 <= i < |p.users| && p.users[i].id == p.activeUserId;
        assert p.users[i] in r.users;
        var k :| 0 <= k < |r.users| && r.users[k] == p.users[i];
      }
    }
  }

  /** Update touches only the active user's name, age, gender and phone. */
  lemma UpdateChangesOnlyActiveUser(p: Profiles)
    requires Valid(p) && p.isEditingMode && p.form.name != "" && p.form.age != ""
    ensures var r := HandleSaveUser(p);
            && |r.users| == |p.users|
            && r.activeUserId == p.activeUserId
            && (forall i :: 0 <= i < |p.users| && p.users[i].id != p.activeUserId ==> r.users[i] == p.users[i])
            && (forall i :: 0 <= i < |p.users| && p.users[i].id == p.activeUserId ==>
                  r.users[i] == ApplyForm(p.users[i], p.form))
            && ActiveUser(r) == ApplyForm(ActiveUser(p), p.form)
  {
    var r := HandleSaveUser(p);
    var i :| 0 <= i < |p.users| && p.users[i].id == p.activeUserId;
    assert r.users[i].id == p.activeUserId;
    assert UniqueIds(r.users) by {
      forall a, b | 0 <= a < b < |r.users| ensures r.users[a].id != r.users[b].id {
        assert r.users[a].id == p.users[a].id && r.users[b].id == p.users[b].id;
      }
    }
  }
}
