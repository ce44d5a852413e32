/**
Standing inside another school. The middleware amends the identity of the
request in place, because the audit trail reads the same object; the
permissions beneath it belong to the session cache and are shared by every
request of the session, so they are replaced and never written.
*/
module Acting {
  import opened Tables

  datatype Status = Active | Suspended | OtherStatus

  /** A user's role in a school, a permission of a role, a permission given to a user in a school. */
  datatype UserRole = UserRole(user: nat, school: nat, role: nat)
  datatype RolePermission = RolePermission(role: nat, permission: string)
  datatype UserPermission = UserPermission(user: nat, school: nat, permission: string)

  /** What the membership probe reads. */
  datatype Roll = Roll(schools: map<nat, Status>, roles: set<UserRole>, carries: set<RolePermission>,
                       given: set<UserPermission>)

  predicate Member(roll: Roll, user: nat, school: nat)
  {
    exists r :: r in roll.roles && r.user == user && r.school == school
  }

  function ByRole(roll: Roll, user: nat, school: nat): set<string>
  {
    set r, p | r in roll.roles && p in roll.carries && r.user == user && r.school == school
      && p.role == r.role :: p.permission
  }

  function ByName(roll: Roll, user: nat, school: nat): set<string>
  {
    set g | g in roll.given && g.user == user && g.school == school :: g.permission
  }

  /** What the school granted the user, by role or by name. */
  function GrantsAt(roll: Roll, user: nat, school: nat): set<string>
  {
    ByRole(roll, user, school) + ByName(roll, user, school)
  }

  predicate SuspendedSchool(roll: Roll, school: nat) { school in roll.schools && roll.schools[school] == Suspended }

  /** The school a request asks for: in the header, or else in the query. */
  datatype Wanted = Nothing | Unreadable | Names(school: nat)

  datatype Reply = PassedOn | BadRequest | NoSuchSchool(school: nat) | DoesNotOversee | SchoolSuspended

  // --- the decision ---------------------------------------------------------

  /** Who is asking, as the handlers downstream will read it. */
  datatype Passport = Passport(user: nat, school: Option<nat>, platform: bool, restricted: bool, apiKey: bool,
                               permissions: set<string>)

  datatype Verdict = Verdict(reply: Reply, passport: Passport)

  function Enter(roll: Roll, p: Passport, wanted: Wanted): Verdict
  {
    match wanted
    case Nothing => Verdict(PassedOn, p)
    case Unreadable => Verdict(BadRequest, p)
    case Names(want) =>
      if p.platform then
        if want in roll.schools then Verdict(PassedOn, p.(school := Some(want))) else Verdict(NoSuchSchool(want), p)
      else if p.apiKey || p.school == Some(want) then Verdict(PassedOn, p)
      else if !Member(roll, p.user, want) then Verdict(DoesNotOversee, p)
      else if SuspendedSchool(roll, want) then Verdict(SchoolSuspended, p)
      else Verdict(PassedOn, p.(school := Some(want), permissions := GrantsAt(roll, p.user, want)))
  }

  predicate Can(p: Passport, permission: string) { (p.platform && !p.restricted) || permission in p.permissions }

  /** The rows of the school itself give the permission: to a role the user holds there, or to the user there. */
  ghost predicate Given(roll: Roll, user: nat, school: nat, permission: string)
  {
    || (exists role :: UserRole(user, school, role) in roll.roles && RolePermission(role, permission) in roll.carries)
    || UserPermission(user, school, permission) in roll.given
  }

  lemma RolesHeld(roll: Roll, user: nat, school: nat)
    ensures Member(roll, user, school) <==> exists role :: UserRole(user, school, role) in roll.roles
  {
    if r :| r in roll.roles && r.user == user && r.school == school {
      assert r == UserRole(user, school, r.role);
    }
  }

  lemma GrantsAre(roll: Roll, user: nat, school: nat)
    ensures forall k :: k in GrantsAt(roll, user, school) <==> Given(roll, user, school, k)
  {
    forall k ensures k in GrantsAt(roll, user, school) <==> Given(roll, user, school, k) {
      if r, c :| r in roll.roles && c in roll.carries && r.user == user && r.school == school && c.role == r.role
                 && c.permission == k {
        assert r == UserRole(user, school, r.role) && c == RolePermission(r.role, k);
      }
      if role :| UserRole(user, school, role) in roll.roles && RolePermission(role, k) in roll.carries {
        var r, c := UserRole(user, school, role), RolePermission(role, k);
        assert c.permission in ByRole(roll, user, school);
      }
      if UserPermission(user, school, k) in roll.given {
        assert UserPermission(user, school, k).permission in ByName(roll, user, school);
      }
    }
  }

  /** A school user stays where home is, with what home grants, or stands in a school that is not suspended and where it
      holds a role, with exactly what that school grants; it is never made platform staff. */
  lemma SchoolUsersStayWithinTheirGrants(roll: Roll, p: Passport, wanted: Wanted)
    requires !p.platform
    ensures
      var v := Enter(roll, p, wanted);
      && !v.passport.platform && v.passport.user == p.user
      && (v.passport == p
          || (v.reply == PassedOn && wanted.Names? && v.passport.school == Some(wanted.school) && !p.apiKey
              && Member(roll, p.user, wanted.school) && !SuspendedSchool(roll, wanted.school)
              && forall k :: Can(v.passport, k) <==> Given(roll, p.user, wanted.school, k)))
  {
    if wanted.Names? {
      GrantsAre(roll, p.user, wanted.school);
    }
  }

  /** The same to the user at the school: its roles there, what those roles carry, what it is given by name there, and
      whether the school is suspended. */
  ghost predicate AgreeAt(a: Roll, b: Roll, user: nat, school: nat)
  {
    && (forall role :: UserRole(user, school, role) in a.roles <==> UserRole(user, school, role) in b.roles)
    && (forall role, k :: UserRole(user, school, role) in a.roles ==>
          (RolePermission(role, k) in a.carries <==> RolePermission(role, k) in b.carries))
    && (forall k :: UserPermission(user, school, k) in a.given <==> UserPermission(user, school, k) in b.given)
    && ((school in a.schools && a.schools[school] == Suspended)
        <==> (school in b.schools && b.schools[school] == Suspended))
  }

  lemma SameGrants(a: Roll, b: Roll, user: nat, school: nat)
    requires AgreeAt(a, b, user, school)
    ensures forall k :: Given(a, user, school, k) ==> Given(b, user, school, k)
    ensures Member(a, user, school) ==> Member(b, user, school)
  {
    RolesHeld(a, user, school);
    RolesHeld(b, user, school);
  }

  /** Two installations in which the school itself treats the user alike give the same verdict, whatever the user holds
      in other schools, its home included. */
  lemma OtherSchoolsDoNotCount(a: Roll, b: Roll, p: Passport, want: nat)
    requires !p.platform && AgreeAt(a, b, p.user, want)
    ensures Enter(a, p, Names(want)) == Enter(b, p, Names(want))
  {
    SameGrants(a, b, p.user, want);
    SameGrants(b, a, p.user, want);
    GrantsAre(a, p.user, want);
    GrantsAre(b, p.user, want);
  }

  /** When a caller of each kind ends up in the school it names. */
  lemma WhoGetsIn(roll: Roll, p: Passport, want: nat)
    ensures
      var v := Enter(roll, p, Names(want));
      v.reply == PassedOn && v.passport.school == Some(want) <==>
        if p.platform then want in roll.schools
        else
          p.school == Some(want) ||
          (!p.apiKey && (exists role :: UserRole(p.user, want, role) in roll.roles)
           && !(want in roll.schools && roll.schools[want] == Suspended))
  {
    RolesHeld(roll, p.user, want);
  }

  /** Which answer a caller gets. One turned away stays where it stood; whoever is let in is still who it was, and a
      platform user still holds what it held. */
  lemma WhoIsTurnedAway(roll: Roll, p: Passport, wanted: Wanted)
    ensures
      var v := Enter(roll, p, wanted);
      var elsewhere := wanted.Names? && !p.platform && !p.apiKey && p.school != Some(wanted.school);
      && (v.reply == BadRequest <==> wanted.Unreadable?)
      && (v.reply.NoSuchSchool? <==> wanted.Names? && p.platform && wanted.school !in roll.schools)
      && (v.reply == DoesNotOversee <==>
          elsewhere && forall role :: UserRole(p.user, wanted.school, role) !in roll.roles)
      && (v.reply == SchoolSuspended <==>
          elsewhere && (exists role :: UserRole(p.user, wanted.school, role) in roll.roles)
          && wanted.school in roll.schools && roll.schools[wanted.school] == Suspended)
      && (v.reply != PassedOn || wanted.Nothing? || (p.apiKey && !p.platform) ==> v.passport == p)
      && v.passport == p.(school := v.passport.school, permissions := v.passport.permissions)
      && (p.platform ==> v.passport.permissions == p.permissions)
  {
    if wanted.Names? {
      RolesHeld(roll, p.user, wanted.school);
    }
  }

  /** Two installations that differ in anything but the caller's own roles: whether the school exists, whether it is
      suspended, what anybody else holds. One who holds no role there gets the same answer from both. */
  lemma OutsidersLearnNothing(roll: Roll, other: Roll, p: Passport, want: nat)
    requires !p.platform && !Member(roll, p.user, want) && !Member(other, p.user, want)
    ensures Enter(roll, p, Names(want)) == Enter(other, p, Names(want))
    ensures Enter(roll, p, Names(want)).reply in {PassedOn, DoesNotOversee}
  {
  }

  // --- the schools a user may switch between ---------------------------------

  datatype MySchool = MySchool(school: nat, isHome: bool)

  predicate Mine(roll: Roll, p: Passport, school: nat) { Member(roll, p.user, school) || p.school == Some(school) }

  function IsHome(p: Passport): nat -> bool { (s: nat) => p.school == Some(s) }
  function IsOther(roll: Roll, p: Passport): nat -> bool { (s: nat) => Mine(roll, p, s) && p.school != Some(s) }

  function Flagged(p: Passport): nat -> MySchool { (s: nat) => MySchool(s, p.school == Some(s)) }

  function Listed(p: Passport, schools: seq<nat>): seq<MySchool>
  {
    seq(|schools|, k requires 0 <= k < |schools| => Flagged(p)(schools[k]))
  }

  /** Home first, then the others by name; `byName` are the schools there are, in the order of their names. */
  function MySchools(roll: Roll, p: Passport, byName: seq<nat>): seq<MySchool>
  {
    Listed(p, Where(byName, IsHome(p)) + Where(byName, IsOther(roll, p)))
  }

  lemma ListedIs(p: Passport, schools: seq<nat>)
    ensures forall m :: m in Listed(p, schools) <==> exists s :: s in schools && m == Flagged(p)(s)
  {
    forall m | m in Listed(p, schools) ensures exists s :: s in schools && m == Flagged(p)(s) {
      var k :| 0 <= k < |schools| && Listed(p, schools)[k] == m;
      assert schools[k] in schools;
    }
    forall s | s in schools ensures Flagged(p)(s) in Listed(p, schools) {
      var k :| 0 <= k < |schools| && schools[k] == s;
      assert Listed(p, schools)[k] == Flagged(p)(s);
    }
  }

  /** The list holds exactly the schools there are in which the user holds a role, and the school the identity names,
      which alone is flagged as home. Under the acting header that is the school acted in. */
  lemma OnlyMySchools(roll: Roll, p: Passport, byName: seq<nat>, school: nat)
    ensures (exists m :: m in MySchools(roll, p, byName) && m.school == school)
      <==> school in byName && Mine(roll, p, school)
    ensures forall m :: m in MySchools(roll, p, byName) ==> (m.isHome <==> p.school == Some(m.school))
  {
    var home, others := Where(byName, IsHome(p)), Where(byName, IsOther(roll, p));
    WhereIn(byName, IsHome(p));
    WhereIn(byName, IsOther(roll, p));
    ListedIs(p, home + others);
    if school in byName && Mine(roll, p, school) {
      assert school in home + others;
      assert Flagged(p)(school) in MySchools(roll, p, byName);
    }
  }

  /** Home, if it is listed, comes first, and the others follow in the order of their names. */
  lemma HomeComesFirst(roll: Roll, p: Passport, byName: seq<nat>, j: nat, k: nat)
    requires j < k < |MySchools(roll, p, byName)|
    requires forall x, y :: 0 <= x < y < |byName| ==> byName[x] != byName[y]
    ensures !MySchools(roll, p, byName)[k].isHome
    ensures MySchools(roll, p, byName)[j].isHome ||
      exists x, y :: 0 <= x < y < |byName| && byName[x] == MySchools(roll, p, byName)[j].school
        && byName[y] == MySchools(roll, p, byName)[k].school
  {
    var home, others := Where(byName, IsHome(p)), Where(byName, IsOther(roll, p));
    WhereIn(byName, IsHome(p));
    WhereIn(byName, IsOther(roll, p));
    WherePairs(byName, IsHome(p), (x: nat, y: nat) => x != y);
    OneHome(p, home);
    assert |home| <= 1;
    assert MySchools(roll, p, byName)[k] == Flagged(p)((home + others)[k]);
    assert MySchools(roll, p, byName)[j] == Flagged(p)((home + others)[j]);
    assert others[k - |home|] in others;
    if j >= |home| {
      var x, y := WhereInOrder(byName, IsOther(roll, p), j - |home|, k - |home|);
    } else {
      assert home[j] in home;
    }
  }

  lemma OneHome(p: Passport, home: seq<nat>)
    requires forall s :: s in home ==> p.school == Some(s)
    ensures |home| > 1 ==> home[0] == home[1]
  {
    if |home| > 1 {
      assert home[0] in home && home[1] in home;
    }
  }

  // --- the middleware -------------------------------------------------------

  /** One pass of a request through the middleware. */
  datatype Pass = Pass(roll: Roll, wanted: Wanted)

  /** Where a request of the session stands, before its pass and after it. */
  function Stands(at: Passport, pass: Option<Pass>): Passport
  {
    match pass case None => at case Some(p) => Enter(p.roll, at, p.wanted).passport
  }

  class Permissions {
    var keys: set<string>

    constructor ()
      ensures keys == {}
    {
      keys := {};
    }

    method Add(key: string)
      modifies this
      ensures keys == old(keys) + {key}
    {
      keys := keys + {key};
    }
  }

  class Identity {
    var user: nat
    var school: Option<nat>
    var platform: bool
    var restricted: bool
    var apiKey: bool
    var permissions: Permissions
    /** The load the identity was copied from and what it read, and the pass made through the middleware since. */
    ghost var origin: nat
    ghost var at: Passport
    ghost var pass: Option<Pass>

    /** A copy for one request; the permissions underneath are the same object. */
    constructor Copy(from: Identity, ghost load: nat)
      ensures user == from.user && school == from.school && platform == from.platform && restricted == from.restricted
      ensures apiKey == from.apiKey && permissions == from.permissions
      ensures origin == load && at == from.Read() && pass == None
    {
      user := from.user;
      school := from.school;
      platform := from.platform;
      restricted := from.restricted;
      apiKey := from.apiKey;
      permissions := from.permissions;
      origin := load;
      at := from.Read();
      pass := None;
    }

    function Read(): (p: Passport)
      reads this, permissions
    {
      Passport(user, school, platform, restricted, apiKey, permissions.keys)
    }
  }

  ghost predicate Lists(perms: seq<string>, keys: set<string>) { forall k :: k in perms <==> k in keys }

  /** `perms` is the array the probe gathers. */
  method ActAsBoardMember(roll: Roll, perms: seq<string>, id: Identity, want: nat) returns (reply: Reply)
    requires !id.platform && !id.apiKey && Lists(perms, GrantsAt(roll, id.user, want))
    modifies id
    ensures Verdict(reply, id.Read()) == Enter(roll, old(id.Read()), Names(want))
    ensures unchanged(id`origin, id`at, id`pass) && (id.permissions == old(id.permissions) || fresh(id.permissions))
    ensures id.school == old(id.school) ==> id.permissions == old(id.permissions)
  {
    if id.school == Some(want) {
      return PassedOn;
    }
    if !Member(roll, id.user, want) {
      return DoesNotOversee;
    }
    if SuspendedSchool(roll, want) {
      return SchoolSuspended;
    }
    id.school := Some(want);
    var scoped := new Permissions();
    for k := 0 to |perms|
      invariant unchanged(id`user, id`platform, id`restricted, id`apiKey, id`permissions, id`origin, id`at, id`pass)
      invariant id.school == Some(want)
      invariant forall key :: key in scoped.keys <==> key in perms[..k]
    {
      scoped.Add(perms[k]);
    }
    assert perms[..|perms|] == perms;
    assert scoped.keys == GrantsAt(roll, id.user, want);
    id.permissions := scoped;
    return PassedOn;
  }

  /** Nothing is written but the request's own identity; no permission object that existed before is. */
  method ActingInstitution(roll: Roll, perms: seq<string>, id: Identity?, wanted: Wanted) returns (reply: Reply)
    requires id != null && wanted.Names? ==> Lists(perms, GrantsAt(roll, id.user, wanted.school))
    modifies id
    ensures id == null ==> reply == PassedOn
    ensures id != null ==> Verdict(reply, id.Read()) == Enter(roll, old(id.Read()), wanted)
    ensures id != null ==>
      unchanged(id`origin, id`at, id`pass) && (id.permissions == old(id.permissions) || fresh(id.permissions))
    ensures id != null && (id.platform || id.school == old(id.school)) ==> id.permissions == old(id.permissions)
  {
    if id == null || wanted.Nothing? {
      return PassedOn;
    }
    if wanted.Unreadable? {
      return BadRequest;
    }
    var want := wanted.school;
    if id.platform {
      if want !in roll.schools {
        return NoSuchSchool(want);
      }
      id.school := Some(want);
      return PassedOn;
    }
    if id.apiKey {
      return PassedOn;
    }
    reply := ActAsBoardMember(roll, perms, id, want);
  }

  // --- a server with its session cache --------------------------------------

  /** Identities cached as sessions are loaded, and the requests being served, each on its own copy of the identity it
      was resolved from. A load is never reused: a session dropped from the cache is loaded anew. */
  class Server {
    var cache: map<nat, Identity>
    var loads: nat
    var requests: set<Identity>
    /** What each load read, and the permissions object it made. */
    ghost var home: map<nat, Passport>
    ghost var shared: map<nat, Permissions>

    /** What was cached is what was loaded, and the shared permissions are still what they were then. */
    ghost predicate CacheHolds()
      reads this, cache.Values, shared.Values
    {
      && home.Keys == shared.Keys && cache.Keys <= home.Keys
      && (forall l :: l in home ==> l < loads && shared[l].keys == home[l].permissions)
      && (forall l :: l in cache ==> Kept(cache[l], home[l], shared[l]))
    }

    static ghost predicate Kept(i: Identity, at: Passport, own: Permissions)
      reads i
    {
      && i.permissions == own && i.user == at.user && i.school == at.school && i.platform == at.platform
      && i.restricted == at.restricted && i.apiKey == at.apiKey
    }

    /** Every request reads as its session was loaded, or as the middleware left it on the one pass it has made. */
    ghost predicate RequestsHold()
      reads this, requests, set i | i in requests :: i.permissions
    {
      forall i :: i in requests ==> i.origin in home && i.at == home[i.origin] && i.Read() == Stands(i.at, i.pass)
    }

    ghost predicate Valid()
      reads this, cache.Values, shared.Values, requests, set i | i in requests :: i.permissions
    {
      CacheHolds() && RequestsHold() && requests !! cache.Values
    }

    constructor ()
      ensures Valid() && requests == {} && cache == map[]
    {
      cache, loads, requests, home, shared := map[], 0, {}, map[], map[];
    }

    /** A session read from the database and cached with permissions of its own. */
    method Load(from: Identity) returns (l: nat)
      requires Valid() && from !in requests
      modifies this
      ensures Valid() && l == old(loads) && l in cache && home == old(home)[l := from.Read()]
      ensures requests == old(requests)
    {
      l := loads;
      home := home[l := from.Read()];
      shared := shared[l := from.permissions];
      cache := cache[l := from];
      loads := loads + 1;
    }

    method Drop(l: nat)
      requires Valid()
      modifies this
      ensures Valid() && home == old(home) && requests == old(requests)
    {
      cache := map k | k in cache && k != l :: cache[k];
    }

    /** A request begins as its session stands: at home, with home's permissions. */
    method Begin(l: nat) returns (id: Identity)
      requires Valid() && l in cache
      modifies this
      ensures Valid() && home == old(home) && fresh(id) && requests == old(requests) + {id}
      ensures id.origin == l && id.Read() == home[l] == id.at && id.pass == None
    {
      id := new Identity.Copy(cache[l], l);
      requests := requests + {id};
    }

    /** A request passes through the middleware, once. No other request sees anything of it, and what is cached
        stays. */
    method Serve(id: Identity, roll: Roll, perms: seq<string>, wanted: Wanted) returns (reply: Reply)
      requires Valid() && id in requests && id.pass == None
      requires wanted.Names? ==> Lists(perms, GrantsAt(roll, id.user, wanted.school))
      modifies id
      ensures Valid() && id.origin == old(id.origin) && id.at == old(id.at) && id.pass == Some(Pass(roll, wanted))
      ensures Verdict(reply, id.Read()) == Enter(roll, id.at, wanted)
      ensures forall i :: i in requests && i != id ==> i.Read() == old(i.Read())
    {
      reply := ActingInstitution(roll, perms, id, wanted);
      id.pass := Some(Pass(roll, wanted));
      assert CacheHolds();
      assert id.Read() == Stands(id.at, id.pass);
    }

    method Finish(id: Identity)
      requires Valid()
      modifies this
      ensures Valid() && home == old(home) && requests == old(requests) - {id}
    {
      requests := requests - {id};
    }

    /** Whatever the interleaving has been: a school user's request has not become platform staff, and it stands at home
        reading exactly what was loaded for home, or in a school that was not suspended when it passed and where its
        user held a role, reading exactly that school's grants. An API key's never leaves home. */
    lemma SchoolUsersStandRightly(id: Identity)
      requires Valid() && id in requests && !id.at.platform
      ensures
        var now := id.Read();
        && id.origin in home && id.at == home[id.origin] && !now.platform && now.user == id.at.user
        && (now == id.at
            || (id.pass.Some? && id.pass.value.wanted.Names? && !id.at.apiKey
                && var roll, school := id.pass.value.roll, id.pass.value.wanted.school;
                   now.school == Some(school) && Member(roll, now.user, school) && !SuspendedSchool(roll, school)
                   && forall k :: k in now.permissions <==> Given(roll, now.user, school, k)))
    {
      if id.pass.Some? && id.pass.value.wanted.Names? {
        GrantsAre(id.pass.value.roll, id.at.user, id.pass.value.wanted.school);
      }
    }

    /** At home a school user's request reads exactly what was loaded for home. */
    lemma HomeSeesHome(id: Identity)
      requires Valid() && id in requests && !id.at.platform
      ensures !id.platform
      ensures id.school == id.at.school ==> id.origin in home && id.Read() == home[id.origin]
    {
    }
  }
}
