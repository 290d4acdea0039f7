/** The index controller over in-memory stores. Each method follows the
    controller's own sequence of reads, checks and writes, and is proved to
    end in exactly the response and store state the functions of module
    Model prescribe. */
module Controller {
  import opened Php
  import opened Model

  class IndexAjaxController {
    /** Configuration, password pattern and matcher, hash function. */
    const platform: Platform
    /** The team table: id to team. */
    var teams: map<int, Team>
    /** The id the next created team receives. */
    var nextId: int
    /** The registration-token table. */
    var tokens: map<string, TokenRecord>
    /** The names of the existing logos. */
    var logos: set<string>
    /** The roster-member table, in insertion order. */
    var roster: seq<RosterMember>
    /** The session of the current connection, if one is active. */
    var session: Option<Session>

    ghost function State(): Store
      reads this
    {
      Store(teams, nextId, tokens, logos, roster, session)
    }

    ghost predicate Valid()
      reads this
    {
      Configured(platform) && Model.Valid(State())
    }

    constructor (platform: Platform, initial: Store)
      requires Configured(platform) && Model.Valid(initial)
      ensures Valid() && this.platform == platform && State() == initial
    {
      this.platform := platform;
      teams, nextId, tokens := initial.teams, initial.nextId, initial.tokens;
      logos, roster, session := initial.logos, initial.roster, initial.session;
    }

    // -------------------------------------------------------------------
    // The store operations the controller calls

    /** Inserts a new, non-admin team under the next id and returns that id. */
    method CreateTeam(name: string, passwordHash: string, logo: string) returns (teamId: int)
      requires Valid() && !NameTaken(teams, name) && logo in logos
      modifies this`teams, this`nextId
      ensures Valid()
      ensures teamId == old(nextId) && teamId in teams && teamId !in old(teams)
      ensures State() == AddTeam(old(State()), Team(name, passwordHash, logo, false))
    {
      teamId := nextId;
      teams := teams[teamId := Team(name, passwordHash, logo, false)];
      nextId := nextId + 1;
    }

    /** Appends one roster member. */
    method AddTeamData(name: string, email: string, teamId: int)
      requires Valid() && teamId in teams
      modifies this`roster
      ensures Valid()
      ensures State() == AddRoster(old(State()), [RosterMember(name, email, teamId)])
    {
      roster := roster + [RosterMember(name, email, teamId)];
    }

    /** Marks a registration token used by a team. */
    method UseRegistrationToken(token: string, teamId: int)
      requires Valid() && teamId in teams
      modifies this`tokens
      ensures Valid()
      ensures State() == ConsumeToken(old(State()), token, teamId)
    {
      tokens := UseToken(tokens, token, teamId);
    }

    /** Stores an uploaded logo; `created` is the name the upload produced,
        or None when it could not be decoded. */
    method CreateCustomLogo(created: Option<string>) returns (custom: Option<string>)
      requires Valid()
      modifies this`logos
      ensures Valid()
      ensures custom == created
      ensures logos == if created.Some? then old(logos) + {created.value} else old(logos)
    {
      custom := created;
      if created.Some? {
        logos := logos + {created.value};
      }
    }

    // -------------------------------------------------------------------
    // The controller

    /** Checks the credentials, then the login gate, then fills the session
        unless one is active. */
    method LoginTeam(teamId: int, password: string, csrfToken: string, ip: string) returns (resp: Response)
      requires Valid()
      modifies this`session
      ensures Valid()
      ensures (resp, State()) == Login(platform, old(State()), teamId, password, csrfToken, ip)
    {
      var team: Option<Team> := None;
      if teamId in teams && teams[teamId].passwordHash == platform.hash(password) {
        team := Some(teams[teamId]);
      }

      var login := Setting(platform, "login");
      if login == "0" && (team.None? || !team.value.admin) {
        return LoginFailed;
      }

      if team.Some? {
        if session.None? {
          session := Some(Session(teamId, team.value.name, csrfToken, ip, team.value.admin));
        }
        var redirect := if team.value.admin then "admin" else "game";
        resp := Ok(LoginSuccessful, redirect);
      } else {
        resp := LoginFailed;
      }
    }

    /** The registration pipeline. */
    method RegisterTeam(teamname: string, password: string, token: Option<string>, logo: string,
                        isCustomLogo: bool, logoType: Option<string>, registerNames: bool,
                        names: seq<string>, emails: seq<string>, o: Oracle) returns (resp: Response)
      requires Valid()
      requires registerNames ==> |names| <= |emails|
      requires o.randomLogo in logos
      modifies this
      ensures Valid()
      ensures (resp, State()) == Register(platform, old(State()),
        Registration(teamname, password, token, logo, isCustomLogo, logoType, registerNames, names, emails), o)
    {
      var a := Registration(teamname, password, token, logo, isCustomLogo, logoType, registerNames, names, emails);
      var name := teamname;
      var pw := password;
      var ldapPassword := password;

      var registration := Setting(platform, "registration");
      if registration == "0" {
        return RegistrationFailed;
      }

      var strongPasswords := Setting(platform, "login_strongpasswords");
      if strongPasswords != "0" {
        if !platform.matches(platform.passwordPattern, pw) {
          return PasswordTooSimple;
        }
      }

      var ldap := Setting(platform, "ldap");
      ldapPassword := "";
      if ldap == "1" {
        if !o.ldapConnects {
          return LdapUnavailable;
        }
        name := Trim(name);
        if !o.ldapBinds {
          return LdapCredentialsError;
        }
        // the directory password is kept for the login; the escrow secret is stored
        ldapPassword := pw;
        pw := o.secret;
      }

      var registrationType := Setting(platform, "registration_type");
      if registrationType == "2" {
        var tokenCheck := TokenUsable(tokens, if token.Some? then token.value else "");
        if token.None? || !tokenCheck {
          return RegistrationFailed;
        }
      }

      resp := ProvisionTeam(a, name, pw, ldap == "1", ldapPassword, registrationType == "2", o);
    }

    /** Registration from the logo step on: resolve the logo, check the name,
        then create the team. `name` and `pw` are the working team name and
        password after the directory step. */
    method ProvisionTeam(a: Registration, name: string, pw: string, directory: bool,
                         ldapPassword: string, tokenized: bool, o: Oracle) returns (resp: Response)
      requires Valid()
      requires a.registerNames ==> |a.names| <= |a.emails|
      requires o.randomLogo in logos
      requires directory == LdapOn(platform) && tokenized == Tokenized(platform)
      requires name == EffectiveName(platform, a) && pw == StoredPassword(platform, a, o)
      requires directory ==> ldapPassword == a.password
      requires tokenized ==> a.token.Some?
      modifies this
      ensures Valid()
      ensures (resp, State()) == Provision(platform, old(State()), a, o)
    {
      var logoName := a.logo;
      if a.isCustomLogo {
        var custom := CreateCustomLogo(o.customLogo);
        if custom.Some? {
          logoName := custom.value;
        } else {
          return RegistrationFailed;
        }
      }
      var checkExists := logoName in logos;
      if !checkExists {
        logoName := o.randomLogo;
      }
      assert logoName == ChosenLogo(old(State()), a, o);

      if Trim(name) == [] {
        return RegistrationFailed;
      }
      var shortname := Prefix(name, MaxNameLength);
      var teamExists := NameTaken(teams, shortname);
      if teamExists {
        return RegistrationFailed;
      }
      resp := CommitTeam(a, shortname, pw, logoName, directory, ldapPassword, tokenized, o);
    }

    /** Registration once the name is known to be free: create the team,
        store the roster, use the token, log the team in. */
    method CommitTeam(a: Registration, shortname: string, pw: string, logoName: string, directory: bool,
                      ldapPassword: string, tokenized: bool, o: Oracle) returns (resp: Response)
      requires Valid()
      requires a.registerNames ==> |a.names| <= |a.emails|
      requires !NameTaken(teams, shortname) && logoName in logos
      requires directory == LdapOn(platform) && tokenized == Tokenized(platform)
      requires (if directory then ldapPassword else pw) == LoginPassword(platform, a, o)
      requires tokenized ==> a.token.Some?
      modifies this
      ensures Valid()
      ensures (resp, State()) == Commit(platform, old(State()), a, o, Team(shortname, platform.hash(pw), logoName, false))
    {
      var passwordHash := platform.hash(pw);
      var teamId := CreateTeam(shortname, passwordHash, logoName);
      ghost var s2 := State();
      if a.registerNames {
        AddRosterMembers(a.names, a.emails, teamId);
      }
      ghost var s3 := State();
      assert s3 == if a.registerNames then AddRoster(s2, Members(a.names, a.emails, teamId)) else s2;
      if tokenized {
        UseRegistrationToken(a.token.value, teamId);
      }
      assert State() == if tokenized then ConsumeToken(s3, a.token.value, teamId) else s3;

      if directory {
        resp := LoginTeam(teamId, ldapPassword, o.csrfToken, o.clientIp);
      } else {
        resp := LoginTeam(teamId, pw, o.csrfToken, o.clientIp);
      }
    }

    /** Stores the roster of a new team: `names[i]` with `emails[i]`, one
        member at a time, in order. */
    method AddRosterMembers(names: seq<string>, emails: seq<string>, teamId: int)
      requires Valid() && teamId in teams
      requires |names| <= |emails|
      modifies this`roster
      ensures Valid()
      ensures State() == AddRoster(old(State()), Members(names, emails, teamId))
    {
      var i := 0;
      while i < |names|
        invariant 0 <= i <= |names|
        invariant Valid()
        invariant |roster| == |old(roster)| + i && roster[..|old(roster)|] == old(roster)
        invariant forall k :: 0 <= k < i ==> roster[|old(roster)| + k] == RosterMember(names[k], emails[k], teamId)
      {
        AddTeamData(names[i], emails[i], teamId);
        i := i + 1;
      }
      assert roster == old(roster) + Members(names, emails, teamId);
    }

    /** Dispatches one action; `login_team` resolves the team by name unless
        login by id is configured. */
    method HandleAction(action: string, params: Params, o: Oracle) returns (resp: Response)
      requires Valid()
      requires action == "register_names" ==> |params.names| <= |params.emails|
      requires action == "register_team" || action == "register_names" ==> o.randomLogo in logos
      modifies this
      ensures Valid()
      ensures (resp, State()) == Model.HandleAction(platform, old(State()), action, params, o)
    {
      if action == "none" {
        resp := InvalidAction;
      } else if action == "register_team" {
        resp := RegisterTeam(params.teamname, params.password, Some(params.token), params.logo,
                             params.isCustomLogo, Some(params.logoType), false, [], [], o);
      } else if action == "register_names" {
        resp := RegisterTeam(params.teamname, params.password, Some(params.token), params.logo,
                             params.isCustomLogo, Some(params.logoType), true, params.names, params.emails, o);
      } else if action == "login_team" {
        var teamId: int;
        var loginSelect := Setting(platform, "login_select");
        if loginSelect == "1" {
          teamId := params.teamId;
        } else {
          var teamExists := NameTaken(teams, params.teamname);
          if teamExists {
            teamId :| teamId in teams && teams[teamId].name == params.teamname;
            // names are unique, so this is the team the model resolves
            assert teamId == TeamIdByName(State(), params.teamname);
          } else {
            return LoginFailed;
          }
        }
        resp := LoginTeam(teamId, params.password, o.csrfToken, o.clientIp);
      } else {
        resp := InvalidAction;
      }
    }
  }
}
