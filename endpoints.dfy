/** The API's ten endpoints over its two stores. Each endpoint delegates to one
    store and leaves the other alone; a NotFound result is what the HTTP layer
    turns into status 404 ("User not found" / "Mission not found"). */
module Endpoints {
  import opened Wrappers
  import opened Models
  import opened Storage

  class Api {
    /** The user list and its counter, both starting out empty and at 1. */
    const users: Store<User>
    /** The mission list and its counter. */
    const missions: Store<Mission>

    ghost predicate Valid()
      reads this, users, missions
    {
      users.Valid() && missions.Valid() && users as object != missions as object
    }

    constructor ()
      ensures Valid() && fresh(users) && fresh(missions)
      ensures users.State() == Empty() && missions.State() == Empty()
    {
      users := new Store<User>();
      missions := new Store<Mission>();
    }

    // ----- users -----

    method CreateUser(body: Body<User>) returns (u: Record<User>)
      requires Valid()
      modifies users
      ensures Valid() && unchanged(missions)
      ensures u == Record(old(users.nextId), body.fields)
      ensures users.records == old(users.records) + [u] && users.nextId == old(users.nextId) + 1
      ensures users.State() == Apply(old(users.State()), Post(body))
    {
      u := users.Create(body);
    }

    method ListUsers() returns (s: seq<Record<User>>)
      ensures s == users.records
    {
      s := users.List();
    }

    method GetUser(id: int) returns (r: Result<Record<User>>)
      ensures r == Lookup(users.records, id)
    {
      r := users.Get(id);
    }

    method UpdateUser(id: int, body: Body<User>) returns (r: Result<Record<User>>)
      requires Valid()
      modifies users
      ensures Valid() && unchanged(missions)
      ensures users.nextId == old(users.nextId)
      ensures match FirstIndex(old(users.records), id)
        case None => r == NotFound && users.records == old(users.records)
        case Some(i) =>
          && r == Ok(Record(id, body.fields))
          && users.records == old(users.records)[i := Record(id, body.fields)]
      ensures users.State() == Apply(old(users.State()), Put(id, body))
    {
      r := users.Update(id, body);
    }

    method DeleteUser(id: int) returns (r: Result<Record<User>>)
      requires Valid()
      modifies users
      ensures Valid() && unchanged(missions)
      ensures users.nextId == old(users.nextId)
      ensures match FirstIndex(old(users.records), id)
        case None => r == NotFound && users.records == old(users.records)
        case Some(i) =>
          && r == Ok(old(users.records)[i])
          && users.records == old(users.records)[..i] + old(users.records)[i + 1..]
      ensures users.State() == Apply(old(users.State()), DeleteOne(id))
    {
      r := users.Delete(id);
    }

    // ----- missions -----

    method CreateMission(body: Body<Mission>) returns (m: Record<Mission>)
      requires Valid()
      modifies missions
      ensures Valid() && unchanged(users)
      ensures m == Record(old(missions.nextId), body.fields)
      ensures missions.records == old(missions.records) + [m] && missions.nextId == old(missions.nextId) + 1
      ensures missions.State() == Apply(old(missions.State()), Post(body))
    {
      m := missions.Create(body);
    }

    method ListMissions() returns (s: seq<Record<Mission>>)
      ensures s == missions.records
    {
      s := missions.List();
    }

    method GetMission(id: int) returns (r: Result<Record<Mission>>)
      ensures r == Lookup(missions.records, id)
    {
      r := missions.Get(id);
    }

    method UpdateMission(id: int, body: Body<Mission>) returns (r: Result<Record<Mission>>)
      requires Valid()
      modifies missions
      ensures Valid() && unchanged(users)
      ensures missions.nextId == old(missions.nextId)
      ensures match FirstIndex(old(missions.records), id)
        case None => r == NotFound && missions.records == old(missions.records)
        case Some(i) =>
          && r == Ok(Record(id, body.fields))
          && missions.records == old(missions.records)[i := Record(id, body.fields)]
      ensures missions.State() == Apply(old(missions.State()), Put(id, body))
    {
      r := missions.Update(id, body);
    }

    method DeleteMission(id: int) returns (r: Result<Record<Mission>>)
      requires Valid()
      modifies missions
      ensures Valid() && unchanged(users)
      ensures missions.nextId == old(missions.nextId)
      ensures match FirstIndex(old(missions.records), id)
        case None => r == NotFound && missions.records == old(missions.records)
        case Some(i) =>
          && r == Ok(old(missions.records)[i])
          && missions.records == old(missions.records)[..i] + old(missions.records)[i + 1..]
      ensures missions.State() == Apply(old(missions.State()), DeleteOne(id))
    {
      r := missions.Delete(id);
    }
  }

  /** A client of the contracts above: two users are created, the first is
      updated in place, the second deleted, after which it cannot be found. */
  method UserWalkthrough()
  {
    var api := new Api();
    var ana := api.CreateUser(Body(None, User("Ana", "Pilot", None)));
    assert ana == Record(1, User("Ana", "Pilot", None));
    var bo := api.CreateUser(Body(None, User("Bo", "Medic", None)));
    assert bo.id == 2 && api.users.records == [ana, bo];
    assert FirstIndex(api.users.records, 1) == Some(0);
    var updated := api.UpdateUser(1, Body(None, User("Ana", "Commander", None)));
    assert updated == Ok(Record(1, User("Ana", "Commander", None)));
    var all := api.ListUsers();
    assert all == [Record(1, User("Ana", "Commander", None)), bo];
    assert FirstIndex(api.users.records, 2) == Some(1);
    var deleted := api.DeleteUser(2);
    assert deleted == Ok(bo);
    all := api.ListUsers();
    assert all == [Record(1, User("Ana", "Commander", None))];
    var gone := api.GetUser(2);
    assert gone == NotFound;
    var missing := api.GetMission(99);
    assert missing == NotFound;
  }
}
