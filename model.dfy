/** Value-level model of the registration and login logic of the index
    controller: the entities its collaborators store, the inputs it cannot
    see, and the three operations (registration, login, action dispatch) as
    functions from a store snapshot to a response and a new snapshot. The
    class in module Controller is proved to compute exactly these. */
module Model {
  import opened Php

  datatype Option<T> = None | Some(value: T)

  /** A row of the team table. New teams are never admins. */
  datatype Team = Team(name: string, passwordHash: string, logo: string, admin: bool)

  /** A row of the registration-token table: whether it has been used and,
      once used, by which team. */
  datatype TokenRecord = TokenRecord(used: bool, teamId: Option<int>)

  /** A roster member attached to a team at registration time. */
  datatype RosterMember = RosterMember(name: string, email: string, teamId: int)

  /** The session fields written on a successful login. `admin` records
      whether the `admin` key was set. */
  datatype Session = Session(teamId: int, name: string, csrfToken: string, ip: string, admin: bool)

  /** What the controller answers: a success with a redirect hint, or an
      error with a message and a category tag. */
  datatype Response = Ok(message: string, redirect: string) | Err(message: string, category: string)

  /** The fixed collaborators: the configuration table, the current password
      pattern, the pattern matcher (pattern, password) and the hash function.
      The matcher and the hash are uninterpreted. */
  datatype Platform = Platform(
    config: map<string, string>,
    passwordPattern: string,
    matches: (string, string) -> bool,
    hash: string -> string)

  /** What the controller learns from the outside world during one request:
      the outcome of the directory connect and bind, the random escrow
      secret, the name of a freshly created custom logo (None when creation
      fails), the random default logo, the random CSRF token and the client
      address. */
  datatype Oracle = Oracle(
    ldapConnects: bool,
    ldapBinds: bool,
    secret: string,
    customLogo: Option<string>,
    randomLogo: string,
    csrfToken: string,
    clientIp: string)

  /** A snapshot of every store the controller reads or writes. */
  datatype Store = Store(
    teams: map<int, Team>,
    nextId: int,
    tokens: map<string, TokenRecord>,
    logos: set<string>,
    roster: seq<RosterMember>,
    session: Option<Session>)

  /** The arguments of a registration. `logoType` is accepted and never used. */
  datatype Registration = Registration(
    teamname: string,
    password: string,
    token: Option<string>,
    logo: string,
    isCustomLogo: bool,
    logoType: Option<string>,
    registerNames: bool,
    names: seq<string>,
    emails: seq<string>)

  /** The already-decoded request parameters of the three actions. */
  datatype Params = Params(
    teamId: int,
    teamname: string,
    password: string,
    token: string,
    logo: string,
    isCustomLogo: bool,
    logoType: string,
    names: seq<string>,
    emails: seq<string>)

  const RegistrationFailed := Err("Registration failed", "registration")
  const PasswordTooSimple := Err("Password too simple", "registration")
  const LdapUnavailable := Err("Could not connect to LDAP server", "registration")
  const LdapCredentialsError := Err("LDAP Credentials Error", "registration")
  const LoginFailed := Err("Login failed", "login")
  const InvalidAction := Err("Invalid action", "index")
  const LoginSuccessful := "Login succesful"

  /** The actions the controller accepts. */
  const Actions: seq<string> := ["register_team", "register_names", "login_team"]

  /** The longest team name that is stored. */
  const MaxNameLength: nat := 20

  // ---------------------------------------------------------------------
  // Configuration

  /** Every configuration key the operations read is present. */
  predicate Configured(p: Platform) {
    "registration" in p.config && "login_strongpasswords" in p.config &&
    "ldap" in p.config && "registration_type" in p.config &&
    "login" in p.config && "login_select" in p.config
  }

  function Setting(p: Platform, key: string): string
    requires key in p.config
  {
    p.config[key]
  }

  predicate RegistrationOpen(p: Platform) requires Configured(p) {
    Setting(p, "registration") != "0"
  }

  predicate PasswordAccepted(p: Platform, password: string) requires Configured(p) {
    Setting(p, "login_strongpasswords") == "0" || p.matches(p.passwordPattern, password)
  }

  predicate LdapOn(p: Platform) requires Configured(p) {
    Setting(p, "ldap") == "1"
  }

  predicate Tokenized(p: Platform) requires Configured(p) {
    Setting(p, "registration_type") == "2"
  }

  predicate LoginOpen(p: Platform) requires Configured(p) {
    Setting(p, "login") != "0"
  }

  predicate LoginById(p: Platform) requires Configured(p) {
    Setting(p, "login_select") == "1"
  }

  // ---------------------------------------------------------------------
  // Store invariant and store operations

  /** The invariant the stores keep: ids are positive and below the next id,
      names are unique, every team's logo exists, and every roster member,
      redeemed token and active session refers to an existing team. */
  ghost predicate Valid(s: Store) {
    1 <= s.nextId &&
    (forall id :: id in s.teams ==> 1 <= id < s.nextId) &&
    (forall i, j :: i in s.teams && j in s.teams && s.teams[i].name == s.teams[j].name ==> i == j) &&
    (forall id :: id in s.teams ==> s.teams[id].logo in s.logos) &&
    (forall k :: 0 <= k < |s.roster| ==> s.roster[k].teamId in s.teams) &&
    (forall t :: t in s.tokens && s.tokens[t].teamId.Some? ==> s.tokens[t].teamId.value in s.teams) &&
    (s.session.Some? ==> s.session.value.teamId in s.teams)
  }

  /** Some team carries this exact name: the name is among the names of
      the team table. */
  predicate NameTaken(teams: map<int, Team>, name: string)
    ensures NameTaken(teams, name) <==> name in (set id | id in teams :: teams[id].name)
  {
    exists id :: id in teams && teams[id].name == name
  }

  /** The token exists and has not been used: it is among the unused
      tokens of the table. */
  predicate TokenUsable(tokens: map<string, TokenRecord>, token: string)
    ensures TokenUsable(tokens, token) <==> token in (set t | t in tokens && !tokens[t].used)
  {
    token in tokens && !tokens[token].used
  }

  /** Marks a token used by a team; a token that is not in the table is left
      alone, as an update that matches no row. */
  function UseToken(tokens: map<string, TokenRecord>, token: string, teamId: int): (r: map<string, TokenRecord>)
    ensures r.Keys == tokens.Keys
    ensures token in tokens ==> r[token] == TokenRecord(true, Some(teamId))
    ensures forall t :: t in tokens && t != token ==> r[t] == tokens[t]
  {
    if token in tokens then tokens[token := TokenRecord(true, Some(teamId))] else tokens
  }

  /** The roster members for one team, pairing names and emails by position. */
  function Members(names: seq<string>, emails: seq<string>, teamId: int): (r: seq<RosterMember>)
    requires |names| <= |emails|
    ensures |r| == |names|
    ensures forall i :: 0 <= i < |names| ==> r[i] == RosterMember(names[i], emails[i], teamId)
  {
    if names == [] then []
    else [RosterMember(names[0], emails[0], teamId)] + Members(names[1..], emails[1..], teamId)
  }

  /** Inserts a team under the next id. */
  function AddTeam(s: Store, team: Team): (r: Store)
    ensures r == s.(teams := s.teams[s.nextId := team], nextId := s.nextId + 1)
    ensures Valid(s) && !NameTaken(s.teams, team.name) && team.logo in s.logos ==>
      Valid(r) && s.nextId !in s.teams
  {
    s.(teams := s.teams[s.nextId := team], nextId := s.nextId + 1)
  }

  /** Appends roster members. */
  function AddRoster(s: Store, members: seq<RosterMember>): (r: Store)
    ensures r == s.(roster := s.roster + members)
    ensures Valid(s) && (forall k :: 0 <= k < |members| ==> members[k].teamId in s.teams) ==> Valid(r)
  {
    s.(roster := s.roster + members)
  }

  /** Marks a registration token used by a team. */
  function ConsumeToken(s: Store, token: string, teamId: int): (r: Store)
    ensures r == s.(tokens := UseToken(s.tokens, token, teamId))
    ensures Valid(s) && teamId in s.teams ==> Valid(r)
  {
    s.(tokens := UseToken(s.tokens, token, teamId))
  }

  /** The team, if `password` hashes to the team's stored hash. */
  function VerifiedTeam(p: Platform, s: Store, teamId: int, password: string): (r: Option<Team>)
    ensures r.Some? <==> teamId in s.teams && s.teams[teamId].passwordHash == p.hash(password)
    ensures r.Some? ==> r.value == s.teams[teamId]
  {
    if teamId in s.teams && s.teams[teamId].passwordHash == p.hash(password)
    then Some(s.teams[teamId]) else None
  }

  // ---------------------------------------------------------------------
  // Login

  /** Verifies the credentials, applies the login gate (admins pass a
      disabled login) and fills the session unless one is already active. */
  function Login(p: Platform, s: Store, teamId: int, password: string, csrfToken: string, ip: string): (out: (Response, Store))
    requires Configured(p)
    // only the session can change, and an active session is never touched
    ensures out.1 == s.(session := out.1.session)
    ensures s.session.Some? ==> out.1.session == s.session
    // who gets in
    ensures out.0.Ok? <==>
      teamId in s.teams && s.teams[teamId].passwordHash == p.hash(password) &&
      (LoginOpen(p) || s.teams[teamId].admin)
    ensures out.0.Err? ==> out == (LoginFailed, s)
    ensures out.0.Ok? ==>
      out.0 == Ok(LoginSuccessful, if s.teams[teamId].admin then "admin" else "game")
    ensures out.0.Ok? && s.session.None? ==>
      out.1.session == Some(Session(teamId, s.teams[teamId].name, csrfToken, ip, s.teams[teamId].admin))
    ensures Valid(s) ==> Valid(out.1)
  {
    var team := VerifiedTeam(p, s, teamId, password);
    if !LoginOpen(p) && (team.None? || !team.value.admin) then (LoginFailed, s)
    else if team.Some? then
      var s' := if s.session.Some? then s
                else s.(session := Some(Session(teamId, team.value.name, csrfToken, ip, team.value.admin)));
      (Ok(LoginSuccessful, if team.value.admin then "admin" else "game"), s')
    else (LoginFailed, s)
  }

  // ---------------------------------------------------------------------
  // Registration

  /** The name the registration works with: trimmed on the directory path
      only. */
  function EffectiveName(p: Platform, a: Registration): (r: string)
    requires Configured(p)
    ensures !LdapOn(p) ==> r == a.teamname
    ensures LdapOn(p) ==> r == Trim(a.teamname)
    ensures |r| <= |a.teamname|
    // the blank-name check sees the same thing on both paths
    ensures Trim(r) == Trim(a.teamname)
  {
    TrimIdempotent(a.teamname);
    if LdapOn(p) then Trim(a.teamname) else a.teamname
  }

  /** The name that is checked for uniqueness and stored. */
  function ShortName(p: Platform, a: Registration): (r: string)
    requires Configured(p)
    ensures |r| <= MaxNameLength && r <= EffectiveName(p, a)
    ensures |r| == if |EffectiveName(p, a)| <= MaxNameLength then |EffectiveName(p, a)| else MaxNameLength
  {
    Prefix(EffectiveName(p, a), MaxNameLength)
  }

  /** The password whose hash is stored: the escrow secret on the directory
      path, the user's password otherwise. */
  function StoredPassword(p: Platform, a: Registration, o: Oracle): (r: string)
    requires Configured(p)
    // the user's password is stored only off the directory path, unless the
    // escrow secret happens to equal it
    ensures r == a.password <==> !LdapOn(p) || o.secret == a.password
    ensures LdapOn(p) ==> r == o.secret
  {
    if LdapOn(p) then o.secret else a.password
  }

  /** The password the automatic login is attempted with: the kept directory
      password on the directory path, the stored password otherwise. Either
      way it is the user's own. */
  function LoginPassword(p: Platform, a: Registration, o: Oracle): (r: string)
    requires Configured(p)
    ensures r == a.password
    ensures !LdapOn(p) ==> r == StoredPassword(p, a, o)
  {
    if LdapOn(p) then a.password else StoredPassword(p, a, o)
  }

  /** The stages of the pipeline, in order. */
  predicate PassesPolicy(p: Platform, a: Registration) requires Configured(p) {
    RegistrationOpen(p) && PasswordAccepted(p, a.password)
  }

  predicate PassesDirectory(p: Platform, o: Oracle) requires Configured(p) {
    LdapOn(p) ==> o.ldapConnects && o.ldapBinds
  }

  predicate PassesToken(p: Platform, s: Store, a: Registration) requires Configured(p) {
    Tokenized(p) ==> a.token.Some? && TokenUsable(s.tokens, a.token.value)
  }

  predicate PassesLogo(a: Registration, o: Oracle) {
    a.isCustomLogo ==> o.customLogo.Some?
  }

  predicate PassesName(p: Platform, s: Store, a: Registration) requires Configured(p) {
    Trim(EffectiveName(p, a)) != [] && !NameTaken(s.teams, ShortName(p, a))
  }

  /** Every stage passes: the registration creates a team. */
  predicate Admitted(p: Platform, s: Store, a: Registration, o: Oracle) requires Configured(p) {
    PassesPolicy(p, a) && PassesDirectory(p, o) && PassesToken(p, s, a) &&
    PassesLogo(a, o) && PassesName(p, s, a)
  }

  /** The logo store once the custom logo, if any, has been created. */
  function LogosAfterUpload(s: Store, a: Registration, o: Oracle): (r: set<string>)
    ensures s.logos <= r
    ensures r - s.logos <= (if a.isCustomLogo && o.customLogo.Some? then {o.customLogo.value} else {})
    ensures a.isCustomLogo && o.customLogo.Some? ==> o.customLogo.value in r
    ensures !(a.isCustomLogo && o.customLogo.Some?) ==> r == s.logos
  {
    if a.isCustomLogo && o.customLogo.Some? then s.logos + {o.customLogo.value} else s.logos
  }

  /** The store once the custom logo, if any, has been created. */
  function Upload(s: Store, a: Registration, o: Oracle): (r: Store)
    ensures r == s.(logos := LogosAfterUpload(s, a, o))
    ensures Valid(s) ==> Valid(r)
  {
    s.(logos := LogosAfterUpload(s, a, o))
  }

  /** The logo the new team gets: the uploaded one, or the requested one if
      it exists, or the random default. */
  function ChosenLogo(s: Store, a: Registration, o: Oracle): (r: string)
    ensures o.randomLogo in s.logos ==> r in LogosAfterUpload(s, a, o)
    // uploaded first, then the requested one if it exists, else the random one
    ensures a.isCustomLogo && o.customLogo.Some? ==> r == o.customLogo.value
    ensures !a.isCustomLogo && a.logo in s.logos ==> r == a.logo
    ensures !a.isCustomLogo && a.logo !in s.logos ==> r == o.randomLogo
  {
    var requested := if a.isCustomLogo && o.customLogo.Some? then o.customLogo.value else a.logo;
    if requested in LogosAfterUpload(s, a, o) then requested else o.randomLogo
  }

  /** The registration pipeline: flags, password policy, directory check,
      token check, logo, name checks, then Commit. */
  function Register(p: Platform, s: Store, a: Registration, o: Oracle): (out: (Response, Store))
    requires Configured(p)
    requires a.registerNames ==> |a.names| <= |a.emails|
    // the failure each early stage produces, with no store touched
    ensures !RegistrationOpen(p) ==> out == (RegistrationFailed, s)
    ensures RegistrationOpen(p) && !PasswordAccepted(p, a.password) ==> out == (PasswordTooSimple, s)
    ensures PassesPolicy(p, a) && LdapOn(p) && !o.ldapConnects ==> out == (LdapUnavailable, s)
    ensures PassesPolicy(p, a) && LdapOn(p) && o.ldapConnects && !o.ldapBinds ==> out == (LdapCredentialsError, s)
    ensures PassesPolicy(p, a) && PassesDirectory(p, o) && !Admitted(p, s, a, o) ==> out.0 == RegistrationFailed
    ensures !(PassesPolicy(p, a) && PassesDirectory(p, o) && PassesToken(p, s, a) && PassesLogo(a, o)) ==> out.1 == s
    // a failure at the name checks keeps only the uploaded logo
    ensures (PassesPolicy(p, a) && PassesDirectory(p, o) && PassesToken(p, s, a) && PassesLogo(a, o) &&
             !PassesName(p, s, a)) ==> out.1 == s.(logos := LogosAfterUpload(s, a, o))
    // nothing but the logo store changes unless a team is created
    ensures !Admitted(p, s, a, o) ==>
      (out.1.teams == s.teams && out.1.nextId == s.nextId && out.1.tokens == s.tokens &&
       out.1.roster == s.roster && out.1.session == s.session)
    // what a successful registration creates
    ensures Admitted(p, s, a, o) ==>
      out.1.teams == s.teams[s.nextId := Team(ShortName(p, a), p.hash(StoredPassword(p, a, o)), ChosenLogo(s, a, o), false)] &&
      out.1.nextId == s.nextId + 1 &&
      out.1.logos == LogosAfterUpload(s, a, o)
    ensures Admitted(p, s, a, o) ==>
      out.1.roster == s.roster + (if a.registerNames then Members(a.names, a.emails, s.nextId) else [])
    ensures Admitted(p, s, a, o) ==>
      out.1.tokens == (if Tokenized(p) then UseToken(s.tokens, a.token.value, s.nextId) else s.tokens)
    // the automatic login: the new team is no admin, so a closed login fails,
    // and an open one succeeds exactly when the login password matches the stored hash
    ensures Admitted(p, s, a, o) && !LoginOpen(p) ==> out.0 == LoginFailed
    ensures Admitted(p, s, a, o) && LoginOpen(p) ==>
      (out.0 == Ok(LoginSuccessful, "game") <==> p.hash(LoginPassword(p, a, o)) == p.hash(StoredPassword(p, a, o)))
    ensures Admitted(p, s, a, o) && LoginOpen(p) && !LdapOn(p) ==> out.0 == Ok(LoginSuccessful, "game")
    ensures Admitted(p, s, a, o) && out.0.Err? ==> out.0 == LoginFailed
    ensures Admitted(p, s, a, o) ==> out.0 == LoginFailed || out.0 == Ok(LoginSuccessful, "game")
    // the session the automatic login leaves: an active one is kept, and an
    // empty one is filled only by a successful login, for the new team
    ensures Admitted(p, s, a, o) ==>
      out.1.session == (if out.0.Ok? && s.session.None?
                        then Some(Session(s.nextId, ShortName(p, a), o.csrfToken, o.clientIp, false))
                        else s.session)
    ensures Admitted(p, s, a, o) && LoginOpen(p) && !LdapOn(p) && s.session.None? ==>
      out.1.session == Some(Session(s.nextId, ShortName(p, a), o.csrfToken, o.clientIp, false))
  {
    if !RegistrationOpen(p) then (RegistrationFailed, s)
    else if !PasswordAccepted(p, a.password) then (PasswordTooSimple, s)
    else if LdapOn(p) && !o.ldapConnects then (LdapUnavailable, s)
    else if LdapOn(p) && !o.ldapBinds then (LdapCredentialsError, s)
    else if !PassesToken(p, s, a) then (RegistrationFailed, s)
    else Provision(p, s, a, o)
  }

  /** Steps that follow a passed token check: resolve the logo, check the
      name, then Commit. */
  function Provision(p: Platform, s: Store, a: Registration, o: Oracle): (out: (Response, Store))
    requires Configured(p)
    requires a.registerNames ==> |a.names| <= |a.emails|
    requires Tokenized(p) ==> a.token.Some?
    ensures !PassesLogo(a, o) ==> out == (RegistrationFailed, s)
    ensures PassesLogo(a, o) && !PassesName(p, s, a) ==> out == (RegistrationFailed, Upload(s, a, o))
    ensures PassesLogo(a, o) && PassesName(p, s, a) ==>
      out.1.teams == s.teams[s.nextId := Team(ShortName(p, a), p.hash(StoredPassword(p, a, o)), ChosenLogo(s, a, o), false)] &&
      out.1.nextId == s.nextId + 1 &&
      out.1.logos == LogosAfterUpload(s, a, o) &&
      out.1.roster == s.roster + (if a.registerNames then Members(a.names, a.emails, s.nextId) else []) &&
      out.1.tokens == (if Tokenized(p) then UseToken(s.tokens, a.token.value, s.nextId) else s.tokens)
    ensures PassesLogo(a, o) && PassesName(p, s, a) && !LoginOpen(p) ==> out.0 == LoginFailed
    ensures PassesLogo(a, o) && PassesName(p, s, a) && LoginOpen(p) ==>
      (out.0 == Ok(LoginSuccessful, "game") <==> p.hash(LoginPassword(p, a, o)) == p.hash(StoredPassword(p, a, o)))
    ensures PassesLogo(a, o) && PassesName(p, s, a) && out.0.Err? ==> out.0 == LoginFailed
    ensures PassesLogo(a, o) && PassesName(p, s, a) ==> out.0 == LoginFailed || out.0 == Ok(LoginSuccessful, "game")
    ensures PassesLogo(a, o) && PassesName(p, s, a) ==>
      out.1.session == (if out.0.Ok? && s.session.None?
                        then Some(Session(s.nextId, ShortName(p, a), o.csrfToken, o.clientIp, false))
                        else s.session)
  {
    if a.isCustomLogo && o.customLogo.None? then (RegistrationFailed, s)
    else
      var s1 := Upload(s, a, o);
      if Trim(EffectiveName(p, a)) == [] then (RegistrationFailed, s1)
      else if NameTaken(s1.teams, ShortName(p, a)) then (RegistrationFailed, s1)
      else
        var team := Team(ShortName(p, a), p.hash(StoredPassword(p, a, o)), ChosenLogo(s, a, o), false);
        Commit(p, s1, a, o, team)
  }

  /** Steps that follow a passed name check: create the team, add the
      roster, use the token, then log the new team in. */
  function Commit(p: Platform, s: Store, a: Registration, o: Oracle, team: Team): (out: (Response, Store))
    requires Configured(p)
    requires a.registerNames ==> |a.names| <= |a.emails|
    requires Tokenized(p) ==> a.token.Some?
    requires !team.admin
    ensures out.1.teams == s.teams[s.nextId := team] && out.1.nextId == s.nextId + 1
    ensures out.1.logos == s.logos
    ensures out.1.roster == s.roster + (if a.registerNames then Members(a.names, a.emails, s.nextId) else [])
    ensures out.1.tokens == (if Tokenized(p) then UseToken(s.tokens, a.token.value, s.nextId) else s.tokens)
    ensures !LoginOpen(p) ==> out.0 == LoginFailed
    ensures LoginOpen(p) ==>
      (out.0 == Ok(LoginSuccessful, "game") <==> team.passwordHash == p.hash(LoginPassword(p, a, o)))
    ensures out.0.Err? ==> out.0 == LoginFailed
    // the new team is no admin, so the login answers one of two responses
    ensures out.0 == LoginFailed || out.0 == Ok(LoginSuccessful, "game")
    // an active session is kept; an empty one is filled only by a successful login
    ensures out.1.session == (if out.0.Ok? && s.session.None?
                              then Some(Session(s.nextId, team.name, o.csrfToken, o.clientIp, false))
                              else s.session)
  {
    var id := s.nextId;
    var s2 := AddTeam(s, team);
    var s3 := if a.registerNames then AddRoster(s2, Members(a.names, a.emails, id)) else s2;
    var s4 := if Tokenized(p) then ConsumeToken(s3, a.token.value, id) else s3;
    Login(p, s4, id, LoginPassword(p, a, o), o.csrfToken, o.clientIp)
  }

  /** Committing a team with a free name and an existing logo keeps the
      store invariant. */
  lemma CommitKeepsValid(p: Platform, s: Store, a: Registration, o: Oracle, team: Team)
    requires Configured(p)
    requires a.registerNames ==> |a.names| <= |a.emails|
    requires Tokenized(p) ==> a.token.Some?
    requires !team.admin
    requires Valid(s) && !NameTaken(s.teams, team.name) && team.logo in s.logos
    ensures Valid(Commit(p, s, a, o, team).1)
  {
  }

  /** Registration keeps the store invariant, given that the random default
      logo is an existing logo. */
  lemma RegisterKeepsValid(p: Platform, s: Store, a: Registration, o: Oracle)
    requires Configured(p)
    requires a.registerNames ==> |a.names| <= |a.emails|
    requires Valid(s) && o.randomLogo in s.logos
    ensures Valid(Register(p, s, a, o).1)
  {
    if PassesPolicy(p, a) && PassesDirectory(p, o) && PassesToken(p, s, a) && PassesLogo(a, o) {
      var s1 := Upload(s, a, o);
      if PassesName(p, s, a) {
        var team := Team(ShortName(p, a), p.hash(StoredPassword(p, a, o)), ChosenLogo(s, a, o), false);
        assert Register(p, s, a, o) == Provision(p, s, a, o) == Commit(p, s1, a, o, team);
        CommitKeepsValid(p, s1, a, o, team);
      }
    }
  }

  // ---------------------------------------------------------------------
  // Dispatch

  /** The id of the team with this name; names are unique in a valid store. */
  ghost function TeamIdByName(s: Store, name: string): (id: int)
    requires NameTaken(s.teams, name)
    ensures id in s.teams && s.teams[id].name == name
    ensures Valid(s) ==> forall j :: j in s.teams && s.teams[j].name == name ==> j == id
  {
    var id :| id in s.teams && s.teams[id].name == name; id
  }

  /** The registration arguments an action passes on. */
  function RegistrationOf(action: string, params: Params): (a: Registration)
    ensures a.registerNames <==> action == "register_names"
    ensures a.registerNames ==> a.names == params.names && a.emails == params.emails
    ensures !a.registerNames ==> a.names == [] && a.emails == []
    ensures a.token == Some(params.token)
  {
    var names := action == "register_names";
    Registration(params.teamname, params.password, Some(params.token), params.logo,
                 params.isCustomLogo, Some(params.logoType), names,
                 if names then params.names else [], if names then params.emails else [])
  }

  /** Dispatches one action. */
  ghost function HandleAction(p: Platform, s: Store, action: string, params: Params, o: Oracle): (out: (Response, Store))
    requires Configured(p)
    requires action == "register_names" ==> |params.names| <= |params.emails|
    ensures action !in Actions ==> out == (InvalidAction, s)
    ensures action == "register_team" || action == "register_names" ==>
      out == Register(p, s, RegistrationOf(action, params), o)
    ensures action == "login_team" && LoginById(p) ==>
      out == Login(p, s, params.teamId, params.password, o.csrfToken, o.clientIp)
    ensures action == "login_team" && !LoginById(p) && !NameTaken(s.teams, params.teamname) ==>
      out == (LoginFailed, s)
    ensures action == "login_team" && !LoginById(p) && NameTaken(s.teams, params.teamname) ==>
      exists id :: id in s.teams && s.teams[id].name == params.teamname &&
        out == Login(p, s, id, params.password, o.csrfToken, o.clientIp)
  {
    if action == "none" then (InvalidAction, s)
    else if action == "register_team" || action == "register_names" then
      Register(p, s, RegistrationOf(action, params), o)
    else if action == "login_team" then
      if LoginById(p) then Login(p, s, params.teamId, params.password, o.csrfToken, o.clientIp)
      else if NameTaken(s.teams, params.teamname) then
        Login(p, s, TeamIdByName(s, params.teamname), params.password, o.csrfToken, o.clientIp)
      else (LoginFailed, s)
    else (InvalidAction, s)
  }

  /** Every action keeps the store invariant, given that the random default
      logo is an existing logo. */
  lemma HandleActionKeepsValid(p: Platform, s: Store, action: string, params: Params, o: Oracle)
    requires Configured(p)
    requires action == "register_names" ==> |params.names| <= |params.emails|
    requires Valid(s)
    requires action == "register_team" || action == "register_names" ==> o.randomLogo in s.logos
    ensures Valid(HandleAction(p, s, action, params, o).1)
  {
    if action == "register_team" || action == "register_names" {
      RegisterKeepsValid(p, s, RegistrationOf(action, params), o);
    }
  }
}
