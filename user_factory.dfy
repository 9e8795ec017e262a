/** The user factory (emporia-api/factories/UserFactory/UserFactory.py): a
    registry from user type to creator, kept at class level and therefore
    shared by every caller; the model holds it as the one `UserFactory`
    object all callers use. A creator is Python code outside this model, so
    creating a user is recorded as the call of the registered creator on
    the keyword arguments. */
module UserFactory {
  import opened Common

  /** A registered creator, such as a `User` subclass. */
  datatype Creator = Creator(name: string)

  /** `creator(**kwargs)`: the user that creator makes from the arguments. */
  datatype User = User(creator: Creator, args: map<string, string>)

  type Registry = map<string, Creator>

  /** What `create_user(user_type, **kwargs)` returns for a registry. */
  function CreateFrom(creators: Registry, userType: string, args: map<string, string>): (r: Result<User>)
    ensures r.Err? <==> userType !in creators
  {
    if userType !in creators then Err("Unknown user type: " + userType)
    else Ok(User(creators[userType], args))
  }

  /** After registering a creator for a type, creating that type calls it. */
  lemma CreateAfterRegister(creators: Registry, userType: string, c: Creator, args: map<string, string>)
    ensures CreateFrom(creators[userType := c], userType, args) == Ok(User(c, args))
  {
  }

  /** Registering a type again replaces its creator, and registering one
      type leaves creation of every other type as it was. */
  lemma RegisterOverwrites(creators: Registry, userType: string, c1: Creator, c2: Creator,
                           other: string, args: map<string, string>)
    ensures CreateFrom(creators[userType := c1][userType := c2], userType, args) == Ok(User(c2, args))
    ensures other != userType ==>
              CreateFrom(creators[userType := c1], other, args) == CreateFrom(creators, other, args)
  {
  }

  class UserFactory {
    /** `_creators`. */
    var creators: Registry

    constructor ()
      ensures creators == map[]
    {
      creators := map[];
    }

    /** `register_user_type(user_type, creator)`. */
    method RegisterUserType(userType: string, c: Creator)
      modifies this
      ensures creators == old(creators)[userType := c]
      ensures userType in creators && creators[userType] == c
      ensures forall t :: t in old(creators) && t != userType ==> t in creators && creators[t] == old(creators)[t]
    {
      creators := creators[userType := c];
    }

    /** `create_user(user_type, **kwargs)`: the registry is only read. */
    method CreateUser(userType: string, args: map<string, string>) returns (r: Result<User>)
      ensures r == CreateFrom(creators, userType, args)
      ensures r.Err? ==> r.msg == "Unknown user type: " + userType
      ensures r.Ok? ==> userType in creators && r.value == User(creators[userType], args)
    {
      if userType !in creators {
        return Err("Unknown user type: " + userType);
      }
      r := Ok(User(creators[userType], args));
    }
  }
}
