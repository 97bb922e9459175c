/** The user list store (the function module and its class twin). */
module UserStore {
  import opened Wrappers
  import opened Domain
  import ListStore

  function Id(u: Usuario): string { u.id }
  function Email(u: Usuario): string { u.email }

  /** `findById`: the first user with this id, or none. */
  function FindById(s: seq<Usuario>, id: string): (r: Option<Usuario>)
    ensures r.None? <==> forall j :: 0 <= j < |s| ==> s[j].id != id
    ensures r.Some? ==> exists i :: 0 <= i < |s| && s[i] == r.value && s[i].id == id
                                    && forall j :: 0 <= j < i ==> s[j].id != id
  {
    var r := ListStore.FindFirst(s, Id, id);
    assert r.Some? ==> var i := ListStore.IndexOf(s, Id, id).value; s[i] == r.value;
    r
  }

  /** Position of the first user with this email, whatever its state. */
  function IndexByEmail(s: seq<Usuario>, email: string): (r: Option<nat>)
    ensures r.Some? ==> r.value < |s| && s[r.value].email == email
                        && forall j :: 0 <= j < r.value ==> s[j].email != email
    ensures r.None? <==> forall j :: 0 <= j < |s| ==> s[j].email != email
  {
    ListStore.IndexOf(s, Email, email)
  }

  /** `findByEmail`: the earliest user with this email, regardless of its state. */
  function FindByEmail(s: seq<Usuario>, email: string): (r: Option<Usuario>)
    ensures r.None? <==> forall j :: 0 <= j < |s| ==> s[j].email != email
    ensures r.Some? ==> IndexByEmail(s, email).Some? && r.value == s[IndexByEmail(s, email).value]
  {
    ListStore.FindFirst(s, Email, email)
  }

  /** `save`: append one user, leaving the others in place. */
  function Save(s: seq<Usuario>, u: Usuario): (r: seq<Usuario>)
    ensures |r| == |s| + 1 && r[|s|] == u
    ensures forall j :: 0 <= j < |s| ==> r[j] == s[j]
  {
    ListStore.Append(s, u)
  }

  /** `update`: replace the first user with the same id; `NotFound`, with
      nothing written, when no user has that id. */
  function Update(s: seq<Usuario>, u: Usuario): (r: Result<seq<Usuario>, ListStore.StoreError>)
    ensures r.Err? <==> forall j :: 0 <= j < |s| ==> s[j].id != u.id
    ensures r.Ok? ==> exists i :: 0 <= i < |s| && s[i].id == u.id && (forall j :: 0 <= j < i ==> s[j].id != u.id)
                                  && |r.value| == |s| && r.value[i] == u
                                  && forall j :: 0 <= j < |s| && j != i ==> r.value[j] == s[j]
  {
    var r := ListStore.Update(s, Id, u);
    assert r.Ok? ==> var i := ListStore.IndexOf(s, Id, u.id).value; r.value[i] == u;
    r
  }
}
