/** The profile service: given a token, it asks the authentication service
    for the claims behind it, takes the user id from the name-identifier
    claim, asks the customer service for that user's profile, and answers
    with one of three fixed replies or the profile text. Both services are
    parameters: any validator and any customer lookup. */
module Profiles {
  import opened Runtime
  import CustomerServices
  import opened Customers

  /** `ClaimTypes.NameIdentifier`. */
  const NameIdentifier := "http://schemas.xmlsoap.org/ws/2005/05/identity/claims/nameidentifier"

  const InvalidTokenReply := "Unauthorized: Invalid or expired token."
  const MissingUserIdReply := "Unauthorized: Missing user ID in token."
  const ProfileNotFoundReply := "User profile not found."
  const ProfilePrefix := "User Profile: "

  datatype Claim = Claim(claimType: string, value: string)

  /** A validated principal: its claims, in order. */
  datatype Principal = Principal(claims: seq<Claim>)

  /** The two customer fields the profile text shows. */
  datatype Profile = Profile(name: string, email: string)

  /** `principal.FindFirst(type)`: the value of the first claim of that type,
      or nothing when no claim has it. */
  function FindFirst(claims: seq<Claim>, claimType: string): (r: Option<string>)
    ensures r.None? <==> forall k :: 0 <= k < |claims| ==> claims[k].claimType != claimType
    ensures r.Some? ==>
      exists k :: 0 <= k < |claims| && claims[k].claimType == claimType && claims[k].value == r.value
        && forall j :: 0 <= j < k ==> claims[j].claimType != claimType
  {
    if claims == [] then None
    else if claims[0].claimType == claimType then Some(claims[0].value)
    else
      var r := FindFirst(claims[1..], claimType);
      assert forall k :: 1 <= k < |claims| ==> claims[k] == claims[1..][k - 1];
      r
  }

  /** The user id the profile service reads from a principal, when it is
      present and not empty. */
  function UserIdOf(p: Principal): (r: Option<string>)
    ensures r.None? <==>
      (forall k :: 0 <= k < |p.claims| ==> p.claims[k].claimType != NameIdentifier)
      || FindFirst(p.claims, NameIdentifier) == Some("")
    ensures r.Some? ==> r.value != "" && r == FindFirst(p.claims, NameIdentifier)
  {
    var id := FindFirst(p.claims, NameIdentifier);
    if id.None? || id.value == "" then None else id
  }

  /** The success reply. */
  function ProfileText(p: Profile): (t: string)
    ensures |t| == |ProfilePrefix| + |p.name| + 2 + |p.email|
    ensures t[..|ProfilePrefix|] == ProfilePrefix
    ensures t[|ProfilePrefix|..|ProfilePrefix| + |p.name|] == p.name
    ensures t[|ProfilePrefix| + |p.name|..|ProfilePrefix| + |p.name| + 2] == ", "
    ensures t[|t| - |p.email|..] == p.email
  {
    ProfilePrefix + p.name + ", " + p.email
  }

  /** `GetProfile(token)`. `validateToken` answers with a principal, with null
      (`None`), or by throwing; `getCustomerProfile` answers with a profile,
      with null, or by throwing. Thrown exceptions pass through unchanged. */
  function GetProfile(token: string,
                      validateToken: string -> Result<Option<Principal>>,
                      getCustomerProfile: string -> Result<Option<Profile>>): (r: Result<string>)
    ensures r.Ok? ==>
      || r.value == InvalidTokenReply || r.value == MissingUserIdReply || r.value == ProfileNotFoundReply
      || exists prof :: r.value == ProfileText(prof)
    ensures r.Throw? ==>
      || validateToken(token) == Throw(r.exception)
      || exists userId :: getCustomerProfile(userId) == Throw(r.exception)
    ensures validateToken(token).Throw? ==> r == Throw(validateToken(token).exception)
  {
    match validateToken(token)
    case Throw(e) => Throw(e)
    case Ok(None) => Ok(InvalidTokenReply)
    case Ok(Some(principal)) =>
      match UserIdOf(principal)
      case None => Ok(MissingUserIdReply)
      case Some(userId) =>
        match getCustomerProfile(userId)
        case Throw(e) => Throw(e)
        case Ok(None) => Ok(ProfileNotFoundReply)
        case Ok(Some(profile)) => Ok(ProfileText(profile))
  }

  /** A token the validator refuses by throwing (for a nonsense token, an
      UnauthorizedAccessException "Token validation failed. ") makes GetProfile
      throw the same exception. */
  lemma TokenErrorPropagates(token: string, validateToken: string -> Result<Option<Principal>>,
                             getCustomerProfile: string -> Result<Option<Profile>>, e: Exception)
    requires validateToken(token) == Throw(e)
    ensures GetProfile(token, validateToken, getCustomerProfile) == Throw(e)
  {
  }

  /** A null principal gives the invalid-token reply whatever the customer
      lookup would have said: no lookup happens. */
  lemma NullPrincipalIsUnauthorized(token: string, validateToken: string -> Result<Option<Principal>>,
                                    lookup1: string -> Result<Option<Profile>>,
                                    lookup2: string -> Result<Option<Profile>>)
    requires validateToken(token) == Ok(None)
    ensures GetProfile(token, validateToken, lookup1) == Ok(InvalidTokenReply)
    ensures GetProfile(token, validateToken, lookup1) == GetProfile(token, validateToken, lookup2)
  {
  }

  /** A principal without a name-identifier claim, or with an empty one, gives
      the missing-id reply whatever the customer lookup would have said. */
  lemma MissingUserIdIsUnauthorized(token: string, validateToken: string -> Result<Option<Principal>>,
                                    lookup1: string -> Result<Option<Profile>>,
                                    lookup2: string -> Result<Option<Profile>>, p: Principal)
    requires validateToken(token) == Ok(Some(p))
    requires (forall k :: 0 <= k < |p.claims| ==> p.claims[k].claimType != NameIdentifier)
          || FindFirst(p.claims, NameIdentifier) == Some("")
    ensures GetProfile(token, validateToken, lookup1) == Ok(MissingUserIdReply)
    ensures GetProfile(token, validateToken, lookup1) == GetProfile(token, validateToken, lookup2)
  {
  }

  /** The customer lookup is consulted at the first name-identifier value and
      nowhere else: two lookups that agree there give the same answer. */
  lemma LookupOnlyAtUserId(token: string, validateToken: string -> Result<Option<Principal>>,
                           lookup1: string -> Result<Option<Profile>>,
                           lookup2: string -> Result<Option<Profile>>, p: Principal, userId: string)
    requires validateToken(token) == Ok(Some(p))
    requires exists k :: 0 <= k < |p.claims| && p.claims[k] == Claim(NameIdentifier, userId)
                && forall j :: 0 <= j < k ==> p.claims[j].claimType != NameIdentifier
    requires userId != ""
    requires lookup1(userId) == lookup2(userId)
    ensures GetProfile(token, validateToken, lookup1) == GetProfile(token, validateToken, lookup2)
  {
    FirstClaimFound(p.claims, NameIdentifier, userId);
  }

  /** The claim that comes first among those of a type is the one found. */
  lemma {:induction false} FirstClaimFound(claims: seq<Claim>, claimType: string, value: string)
    requires exists k :: 0 <= k < |claims| && claims[k] == Claim(claimType, value)
                && forall j :: 0 <= j < k ==> claims[j].claimType != claimType
    ensures FindFirst(claims, claimType) == Some(value)
  {
    var k :| 0 <= k < |claims| && claims[k] == Claim(claimType, value)
               && forall j :: 0 <= j < k ==> claims[j].claimType != claimType;
    if k > 0 {
      assert claims[1..][k - 1] == claims[k];
      assert forall j :: 0 <= j < k - 1 ==> claims[1..][j] == claims[j + 1];
      FirstClaimFound(claims[1..], claimType, value);
    }
  }

  /** A null profile from the lookup gives the not-found reply; a profile
      gives its text; an exception from the lookup passes through. */
  lemma LookupOutcomes(token: string, validateToken: string -> Result<Option<Principal>>,
                       getCustomerProfile: string -> Result<Option<Profile>>, p: Principal, userId: string)
    requires validateToken(token) == Ok(Some(p))
    requires FindFirst(p.claims, NameIdentifier) == Some(userId) && userId != ""
    ensures match getCustomerProfile(userId)
            case Throw(e) => GetProfile(token, validateToken, getCustomerProfile) == Throw(e)
            case Ok(None) => GetProfile(token, validateToken, getCustomerProfile) == Ok(ProfileNotFoundReply)
            case Ok(Some(prof)) =>
              GetProfile(token, validateToken, getCustomerProfile) == Ok(ProfilePrefix + prof.name + ", " + prof.email)
  {
  }

  /** The four replies can be told apart: the profile text, whatever the name
      and address, is none of the three fixed replies, and those differ. */
  lemma RepliesAreDistinct(p: Profile)
    ensures ProfileText(p) != InvalidTokenReply
    ensures ProfileText(p) != MissingUserIdReply
    ensures ProfileText(p) != ProfileNotFoundReply
    ensures InvalidTokenReply != MissingUserIdReply
    ensures ProfileNotFoundReply != InvalidTokenReply && ProfileNotFoundReply != MissingUserIdReply
  {
    var t := ProfileText(p);
    assert t[1] == 's' && t[5] == 'P';
    assert InvalidTokenReply[1] == 'n' && MissingUserIdReply[1] == 'n';
    assert ProfileNotFoundReply[5] == 'p';
    assert InvalidTokenReply[14] == 'I' && MissingUserIdReply[14] == 'M';
  }

  /** The concrete customer service as a lookup over the names and addresses
      of the stored customers: its `GetCustomerProfile` answers never a null
      profile, only a profile or an exception. */
  function ServiceLookup(profiles: map<string, Profile>): (lookup: string -> Result<Option<Profile>>)
    ensures forall userId :: lookup(userId) != Ok(None)
    ensures forall userId :: lookup(userId).Ok? <==> userId != "" && userId in profiles
    ensures forall userId :: userId in profiles && userId != "" ==> lookup(userId) == Ok(Some(profiles[userId]))
  {
    userId =>
      match CustomerServices.ProfileLookup(profiles, userId)
      case Ok(p) => Ok(Some(p))
      case Throw(e) => Throw(e)
  }

  /** The names and addresses of the customers a repository holds. */
  ghost function ProfilesOf(customers: map<string, Customer>): map<string, Profile>
    reads customers.Values
  {
    map k | k in customers :: Profile(customers[k].name, customers[k].email)
  }

  /** The lookup over the snapshot answers as the customer service does over
      the repository: the stored customer's name and address, or the same
      exception. */
  lemma SnapshotMatchesService(customers: map<string, Customer>, userId: string)
    ensures CustomerServices.ProfileLookup(customers, userId).Throw? ==>
      ServiceLookup(ProfilesOf(customers))(userId) == Throw(CustomerServices.ProfileLookup(customers, userId).exception)
    ensures CustomerServices.ProfileLookup(customers, userId).Ok? ==>
      var c := CustomerServices.ProfileLookup(customers, userId).value;
      ServiceLookup(ProfilesOf(customers))(userId) == Ok(Some(Profile(c.name, c.email)))
  {
  }

  /** With the concrete customer service behind it, GetProfile never gives the
      not-found reply: the service throws instead of returning null. */
  lemma ConcreteServiceNeverReportsMissingProfile(token: string,
                                                  validateToken: string -> Result<Option<Principal>>,
                                                  profiles: map<string, Profile>)
    ensures GetProfile(token, validateToken, ServiceLookup(profiles)) != Ok(ProfileNotFoundReply)
  {
    match validateToken(token)
    case Throw(_) =>
    case Ok(None) =>
    case Ok(Some(p)) =>
      match UserIdOf(p)
      case None =>
      case Some(userId) =>
        if userId in profiles {
          RepliesAreDistinct(profiles[userId]);
        }
  }

  /** With the concrete customer service, a token for an id no customer has
      surfaces as the service's not-found exception. */
  lemma UnknownUserSurfacesAsNotFound(token: string, validateToken: string -> Result<Option<Principal>>,
                                      profiles: map<string, Profile>, p: Principal)
    requires validateToken(token) == Ok(Some(p))
    requires UserIdOf(p).Some? && UserIdOf(p).value !in profiles
    ensures GetProfile(token, validateToken, ServiceLookup(profiles))
         == Throw(KeyNotFound(CustomerServices.ProfileNotFoundMessage))
  {
  }

  /** A token whose principal carries a user id the customer service holds
      a customer under gives that customer's profile text, whatever other
      claims the principal has. */
  lemma StoredProfileFound(token: string, validateToken: string -> Result<Option<Principal>>,
                           profiles: map<string, Profile>, p: Principal, userId: string)
    requires validateToken(token) == Ok(Some(p))
    requires UserIdOf(p) == Some(userId) && userId in profiles
    ensures GetProfile(token, validateToken, ServiceLookup(profiles)) == Ok(ProfileText(profiles[userId]))
  {
  }

  /** The `jti` claim type, which every issued token carries beside its subject. */
  const TokenIdClaim := "jti"

  /** A token issued for "42", whose principal has the name identifier "42"
      and a token-id claim, with the customer service holding Ada under "42",
      gives Ada's profile text. */
  lemma StoredProfileScenario(token: string, validateToken: string -> Result<Option<Principal>>, tokenId: string)
    requires validateToken(token) == Ok(Some(Principal([Claim(NameIdentifier, "42"), Claim(TokenIdClaim, tokenId)])))
    ensures GetProfile(token, validateToken, ServiceLookup(map["42" := Profile("Ada", "ada@example.com")]))
         == Ok("User Profile: Ada, ada@example.com")
  {
    var p := Principal([Claim(NameIdentifier, "42"), Claim(TokenIdClaim, tokenId)]);
    assert p.claims[0].claimType == NameIdentifier;
    assert UserIdOf(p) == Some("42");
    StoredProfileFound(token, validateToken, map["42" := Profile("Ada", "ada@example.com")], p, "42");
    AdaProfileText();
  }

  /** The profile text of the scenario's customer. */
  lemma AdaProfileText()
    ensures ProfileText(Profile("Ada", "ada@example.com")) == "User Profile: Ada, ada@example.com"
  {
    assert ProfilePrefix + "Ada" == "User Profile: Ada";
    assert "User Profile: Ada" + ", " == "User Profile: Ada, ";
    assert "User Profile: Ada, " + "ada@example.com" == "User Profile: Ada, ada@example.com";
  }
}
