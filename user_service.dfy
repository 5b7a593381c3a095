/** UserService over its user store: registration with a unique email, login,
    the partial profile update, the profile view and the wishlist toggle. The
    store maps each id to the saved user document; `saveLog` records every
    document UserRepository.save returns, with its id. The password encoder and the token
    issuer are injected functions. */
module Users {
  import opened Common

  /** A user document. `role` is the name of its Role constant (null when the
      request carried none); the wishlist is a list of product ids, and a
      document stored without one reads back as null. */
  datatype User = User(
    id: Option<string>,
    email: string,
    password: string,
    role: Option<string>,
    street: Option<string>,
    city: Option<string>,
    zip: Option<string>,
    country: Option<string>,
    phoneNumber: Option<string>,
    wishlist: Option<seq<string>>)

  /** `new User(email, password, role)`: no id, no address, an empty wishlist. */
  function NewUser(email: string, password: string, role: Option<string>): (u: User)
    ensures u.id.None? && u.email == email && u.password == password && u.role == role
    ensures u.street.None? && u.city.None? && u.zip.None? && u.country.None? && u.phoneNumber.None?
    ensures u.wishlist == Some([])
  {
    User(None, email, password, role, None, None, None, None, None, Some([]))
  }

  datatype AuthRequest = AuthRequest(email: string, password: string, role: Option<string>)

  datatype AuthResponse = AuthResponse(token: string, role: Option<string>, email: string)

  /** UpdateUserRequest: every field may be left null. */
  datatype UpdateRequest = UpdateRequest(
    password: Option<string>,
    street: Option<string>,
    city: Option<string>,
    zip: Option<string>,
    country: Option<string>,
    phoneNumber: Option<string>)

  /** UserProfileResponse: what the profile page sees, which has no password. */
  datatype Profile = Profile(
    id: Option<string>,
    email: string,
    role: Option<string>,
    street: Option<string>,
    city: Option<string>,
    zip: Option<string>,
    country: Option<string>,
    phoneNumber: Option<string>)

  /** PasswordEncoder.encode, PasswordEncoder.matches(raw, encoded) and
      JwtUtil.generateToken(email, role, id). */
  type Encoder = string -> string
  type Matcher = (string, string) -> bool
  type TokenIssuer = (string, Option<string>, Option<string>) -> string

  const UserNotFound := StatusFault(NotFound, "User not found")

  // ---------------------------------------------------------------------------
  // updateUser

  /** A supplied (non-null) value replaces the current one. */
  function Overwrite(current: Option<string>, supplied: Option<string>): Option<string> {
    if supplied.Some? then supplied else current
  }

  /** Whether the request asks for a new password: non-null and non-empty. */
  predicate ChangesPassword(request: UpdateRequest) {
    request.password.Some? && request.password.value != ""
  }

  /** The document updateUser saves. */
  function ApplyUpdate(user: User, request: UpdateRequest, encode: Encoder): (u: User)
    ensures u.id == user.id && u.email == user.email && u.role == user.role && u.wishlist == user.wishlist
  {
    user.(
      password := if ChangesPassword(request) then encode(request.password.value) else user.password,
      street := Overwrite(user.street, request.street),
      city := Overwrite(user.city, request.city),
      zip := Overwrite(user.zip, request.zip),
      country := Overwrite(user.country, request.country),
      phoneNumber := Overwrite(user.phoneNumber, request.phoneNumber))
  }

  /** Each updatable field changes only when the request supplies it, and then
      takes the supplied value; the password changes only for a non-empty one. */
  lemma UpdateTouchesOnlySupplied(user: User, request: UpdateRequest, encode: Encoder)
    ensures var u := ApplyUpdate(user, request, encode);
      && (u.password != user.password ==> ChangesPassword(request))
      && (ChangesPassword(request) ==> u.password == encode(request.password.value))
      && (request.street.None? ==> u.street == user.street) && (request.street.Some? ==> u.street == request.street)
      && (request.city.None? ==> u.city == user.city) && (request.city.Some? ==> u.city == request.city)
      && (request.zip.None? ==> u.zip == user.zip) && (request.zip.Some? ==> u.zip == request.zip)
      && (request.country.None? ==> u.country == user.country) && (request.country.Some? ==> u.country == request.country)
      && (request.phoneNumber.None? ==> u.phoneNumber == user.phoneNumber)
      && (request.phoneNumber.Some? ==> u.phoneNumber == request.phoneNumber)
  {
  }

  /** A request with nothing in it (an empty password counts as nothing) leaves the user as it was. */
  lemma EmptyUpdateIsIdentity(user: User, request: UpdateRequest, encode: Encoder)
    requires !ChangesPassword(request)
    requires request.street.None? && request.city.None? && request.zip.None?
    requires request.country.None? && request.phoneNumber.None?
    ensures ApplyUpdate(user, request, encode) == user
  {
  }

  /** The request whose effect is `first` followed by `second`. */
  function Then(first: UpdateRequest, second: UpdateRequest): UpdateRequest {
    UpdateRequest(
      if ChangesPassword(second) then second.password else first.password,
      Overwrite(first.street, second.street),
      Overwrite(first.city, second.city),
      Overwrite(first.zip, second.zip),
      Overwrite(first.country, second.country),
      Overwrite(first.phoneNumber, second.phoneNumber))
  }

  /** Two updates in a row amount to one, in which the later request wins field
      by field; so repeating an update changes nothing more. */
  lemma UpdatesCompose(user: User, first: UpdateRequest, second: UpdateRequest, encode: Encoder)
    ensures ApplyUpdate(ApplyUpdate(user, first, encode), second, encode) == ApplyUpdate(user, Then(first, second), encode)
    ensures ApplyUpdate(ApplyUpdate(user, first, encode), first, encode) == ApplyUpdate(user, first, encode)
  {
    assert Then(first, first) == first;
  }

  // ---------------------------------------------------------------------------
  // getProfile

  function ProfileOf(user: User): (p: Profile)
    ensures p.id == user.id && p.email == user.email && p.role == user.role
    ensures p.street == user.street && p.city == user.city && p.zip == user.zip
    ensures p.country == user.country && p.phoneNumber == user.phoneNumber
  {
    Profile(user.id, user.email, user.role, user.street, user.city, user.zip, user.country, user.phoneNumber)
  }

  /** The profile does not depend on the password or the wishlist. */
  lemma ProfileHidesSecrets(user: User, password: string, wishlist: Option<seq<string>>)
    ensures ProfileOf(user.(password := password, wishlist := wishlist)) == ProfileOf(user)
  {
  }

  // ---------------------------------------------------------------------------
  // toggleWishlist

  /** List.remove(Object): drops the first occurrence, if any. */
  function RemoveFirst(list: seq<string>, item: string): (r: seq<string>)
    ensures item !in list ==> r == list
  {
    if list == [] then []
    else if list[0] == item then list[1..]
    else [list[0]] + RemoveFirst(list[1..], item)
  }

  /** The position of the first occurrence. */
  function FirstIndex(list: seq<string>, item: string): (i: nat)
    requires item in list
    ensures i < |list| && list[i] == item && item !in list[..i]
  {
    if list[0] == item then 0
    else
      var i := FirstIndex(list[1..], item);
      assert list[..i + 1] == [list[0]] + list[1..][..i];
      i + 1
  }

  /** Removing the first occurrence cuts the list around that position. */
  lemma {:induction false} RemoveFirstCuts(list: seq<string>, item: string)
    requires item in list
    ensures var i := FirstIndex(list, item); RemoveFirst(list, item) == list[..i] + list[i + 1..]
  {
    if list[0] != item {
      RemoveFirstCuts(list[1..], item);
      var i := FirstIndex(list[1..], item);
      assert list[1..][..i] + list[1..][i + 1..] == list[1..i + 1] + list[i + 2..];
      assert list[..i + 1] == [list[0]] + list[1..i + 1];
    }
  }

  /** One occurrence fewer, everything else kept. */
  lemma RemoveFirstMultiset(list: seq<string>, item: string)
    requires item in list
    ensures multiset(RemoveFirst(list, item)) == multiset(list) - multiset{item}
  {
    RemoveFirstCuts(list, item);
    var i := FirstIndex(list, item);
    assert list == list[..i] + [item] + list[i + 1..];
    assert multiset(list) == multiset(list[..i]) + multiset{item} + multiset(list[i + 1..]);
  }

  /** The new wishlist: a present id loses one occurrence, an absent one is appended. */
  function Toggle(list: seq<string>, productId: string): (toggled: seq<string>)
    ensures |toggled| == if productId in list then |list| - 1 else |list| + 1
    ensures forall other :: other != productId ==> multiset(toggled)[other] == multiset(list)[other]
  {
    if productId in list then
      RemoveFirstMultiset(list, productId);
      var toggled := RemoveFirst(list, productId);
      assert |multiset(toggled)| == |multiset(list)| - 1 by {
        assert multiset(list) == multiset(toggled) + multiset{productId};
      }
      toggled
    else list + [productId]
  }

  /** Toggling adds or removes exactly one occurrence of the id and keeps every other id. */
  lemma ToggleMultiset(list: seq<string>, productId: string)
    ensures productId in list ==> multiset(Toggle(list, productId)) == multiset(list) - multiset{productId}
    ensures productId !in list ==> multiset(Toggle(list, productId)) == multiset(list) + multiset{productId}
    ensures productId !in list ==> |Toggle(list, productId)| == |list| + 1 && Toggle(list, productId)[|list|] == productId
  {
    if productId in list {
      RemoveFirstMultiset(list, productId);
    }
  }

  /** On a list holding the id at most once, toggling flips its membership. */
  lemma ToggleFlipsMembership(list: seq<string>, productId: string)
    requires multiset(list)[productId] <= 1
    ensures productId in Toggle(list, productId) <==> productId !in list
  {
    ToggleMultiset(list, productId);
    assert productId in Toggle(list, productId) <==> productId in multiset(Toggle(list, productId));
  }

  /** Toggling an absent id twice gives back the original list. */
  lemma ToggleTwiceRestores(list: seq<string>, productId: string)
    requires productId !in list
    ensures Toggle(Toggle(list, productId), productId) == list
  {
    var once := list + [productId];
    assert productId in once;
    assert once[..|list|] == list;
    assert FirstIndex(once, productId) == |list|;
    RemoveFirstCuts(once, productId);
  }

  // ---------------------------------------------------------------------------
  // The service

  class UserService {
    var users: map<string, User>
    ghost var saveLog: seq<User>
    const encode: Encoder
    const matches: Matcher
    const generateToken: TokenIssuer

    /** Every stored document carries its key as id, and no two users share an email. */
    ghost predicate Valid()
      reads this
    {
      && (forall id :: id in users ==> users[id].id == Some(id))
      && (forall a, b :: a in users && b in users && users[a].email == users[b].email ==> a == b)
    }

    /** existsByEmail */
    predicate EmailTaken(email: string)
      reads this
    {
      exists id :: id in users && users[id].email == email
    }

    constructor (encode: Encoder, matches: Matcher, generateToken: TokenIssuer)
      ensures Valid() && users == map[] && saveLog == []
      ensures this.encode == encode && this.matches == matches && this.generateToken == generateToken
    {
      this.encode := encode;
      this.matches := matches;
      this.generateToken := generateToken;
      users := map[];
      saveLog := [];
    }

    /** findByEmail: the one user with this email, if any. */
    method FindByEmail(email: string) returns (found: Option<User>)
      requires Valid()
      ensures found.None? <==> !EmailTaken(email)
      ensures found.Some? ==>
        found.value.id.Some? && found.value.id.value in users
        && users[found.value.id.value] == found.value && found.value.email == email
    {
      var rest := users.Keys;
      found := None;
      while rest != {}
        invariant rest <= users.Keys
        invariant found.None? ==> forall id :: id in users.Keys - rest ==> users[id].email != email
        invariant found.Some? ==>
          found.value.id.Some? && found.value.id.value in users
          && users[found.value.id.value] == found.value && found.value.email == email
        decreases |rest|
      {
        var id :| id in rest;
        if users[id].email == email {
          found := Some(users[id]);
        }
        rest := rest - {id};
      }
      if found.None? {
        assert forall id :: id in users ==> users[id].email != email;
      }
    }

    /** UserRepository.save: a new user gets a fresh id; one with an id replaces
        the stored document. No other user may hold the same email. */
    method Save(user: User) returns (saved: User)
      requires Valid()
      requires forall id :: id in users && users[id].email == user.email ==> user.id == Some(id)
      modifies this
      ensures Valid() && saved.id.Some?
      ensures user.id.Some? ==> saved == user
      ensures user.id.None? ==> saved == user.(id := saved.id) && saved.id.value !in old(users)
      ensures users == old(users)[saved.id.value := saved]
      ensures saveLog == old(saveLog) + [saved]
    {
      saved := user;
      if saved.id.None? {
        var id := FreshKey(users);
        saved := saved.(id := Some(id));
      }
      users := users[saved.id.value := saved];
      saveLog := saveLog + [saved];
    }

    /** register: a taken email is refused before anything is saved; otherwise
        one new user with the encoded password is saved and a token issued for it. */
    method Register(request: AuthRequest) returns (r: Result<AuthResponse, Fault>)
      requires Valid()
      modifies this
      ensures Valid()
      ensures old(EmailTaken(request.email)) ==>
        r == Failure(StatusFault(BadRequest, "Email already exists")) && users == old(users) && saveLog == old(saveLog)
      ensures !old(EmailTaken(request.email)) ==>
        && |saveLog| == |old(saveLog)| + 1
        && var saved := saveLog[|old(saveLog)|];
        && saved.id.Some? && saved.id.value !in old(users)
        && saved == NewUser(request.email, encode(request.password), request.role).(id := saved.id)
        && saveLog == old(saveLog) + [saved]
        && users == old(users)[saved.id.value := saved]
        && r == Success(AuthResponse(generateToken(request.email, request.role, saved.id), request.role, request.email))
    {
      var existing := FindByEmail(request.email);
      if existing.Some? {
        return Failure(StatusFault(BadRequest, "Email already exists"));
      }
      var user := NewUser(request.email, encode(request.password), request.role);
      var saved := Save(user);
      var token := generateToken(saved.email, saved.role, saved.id);
      r := Success(AuthResponse(token, saved.role, saved.email));
    }

    /** login: an unknown email is NOT_FOUND, a wrong password UNAUTHORIZED, and
        only a user whose password matches gets a token. */
    method Login(request: AuthRequest) returns (r: Result<AuthResponse, Fault>)
      requires Valid()
      ensures !EmailTaken(request.email) ==> r == Failure(UserNotFound)
      ensures forall id :: id in users && users[id].email == request.email ==>
        r == if matches(request.password, users[id].password)
             then Success(AuthResponse(generateToken(request.email, users[id].role, Some(id)), users[id].role, request.email))
             else Failure(StatusFault(Unauthorized, "Invalid password"))
      ensures r.Success? <==>
        exists id :: id in users && users[id].email == request.email && matches(request.password, users[id].password)
    {
      var found := FindByEmail(request.email);
      if found.None? {
        return Failure(UserNotFound);
      }
      var user := found.value;
      if !matches(request.password, user.password) {
        return Failure(StatusFault(Unauthorized, "Invalid password"));
      }
      var token := generateToken(user.email, user.role, user.id);
      r := Success(AuthResponse(token, user.role, user.email));
    }

    /** updateUser: the user with this email gets the supplied fields and is saved. */
    method UpdateUser(email: string, request: UpdateRequest) returns (r: Result<(), Fault>)
      requires Valid()
      modifies this
      ensures Valid()
      ensures !old(EmailTaken(email)) ==> r == Failure(UserNotFound) && users == old(users) && saveLog == old(saveLog)
      ensures forall id :: id in old(users) && old(users)[id].email == email ==>
        && r == Success(())
        && users == old(users)[id := ApplyUpdate(old(users)[id], request, encode)]
        && saveLog == old(saveLog) + [users[id]]
    {
      var found := FindByEmail(email);
      if found.None? {
        return Failure(UserNotFound);
      }
      var user := found.value;
      if request.password.Some? && request.password.value != "" {
        user := user.(password := encode(request.password.value));
      }
      if request.street.Some? {
        user := user.(street := request.street);
      }
      if request.city.Some? {
        user := user.(city := request.city);
      }
      if request.zip.Some? {
        user := user.(zip := request.zip);
      }
      if request.country.Some? {
        user := user.(country := request.country);
      }
      if request.phoneNumber.Some? {
        user := user.(phoneNumber := request.phoneNumber);
      }
      assert user == ApplyUpdate(found.value, request, encode);
      var saved := Save(user);
      r := Success(());
    }

    /** getProfile: the profile of the user with this email. */
    method GetProfile(email: string) returns (r: Result<Profile, Fault>)
      requires Valid()
      ensures !EmailTaken(email) ==> r == Failure(UserNotFound)
      ensures forall id :: id in users && users[id].email == email ==> r == Success(ProfileOf(users[id]))
    {
      var found := FindByEmail(email);
      if found.None? {
        return Failure(UserNotFound);
      }
      r := Success(ProfileOf(found.value));
    }

    /** toggleWishlist: removes the product's first occurrence, or appends it, and
        saves the user. A null wishlist fails when it is dereferenced. */
    method ToggleWishlist(userId: string, productId: string) returns (r: Result<(), Fault>)
      requires Valid()
      modifies this
      ensures Valid()
      ensures userId !in old(users) ==> r == Failure(UserNotFound) && users == old(users) && saveLog == old(saveLog)
      ensures userId in old(users) && old(users)[userId].wishlist.None? ==>
        r == Failure(NullPointerFault) && users == old(users) && saveLog == old(saveLog)
      ensures userId in old(users) && old(users)[userId].wishlist.Some? ==>
        && r == Success(())
        && var user := old(users)[userId];
        && users == old(users)[userId := user.(wishlist := Some(Toggle(user.wishlist.value, productId)))]
        && saveLog == old(saveLog) + [users[userId]]
    {
      if userId !in users {
        return Failure(UserNotFound);
      }
      var user := users[userId];
      if user.wishlist.None? {
        return Failure(NullPointerFault);
      }
      var list := user.wishlist.value;
      if productId in list {
        list := RemoveFirst(list, productId);
      } else {
        list := list + [productId];
      }
      user := user.(wishlist := Some(list));
      var saved := Save(user);
      r := Success(());
    }

    /** getWishlist: the stored list as it is (null when the document has none). */
    method GetWishlist(userId: string) returns (r: Result<Option<seq<string>>, Fault>)
      ensures userId !in users ==> r == Failure(UserNotFound)
      ensures userId in users ==> r == Success(users[userId].wishlist)
    {
      if userId !in users {
        return Failure(UserNotFound);
      }
      r := Success(users[userId].wishlist);
    }
  }
}
