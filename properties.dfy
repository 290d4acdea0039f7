/** Properties that relate several calls of the registration and login
    functions, or that draw consequences from their contracts. */
module Properties {
  import opened Php
  import opened Model

  /** A successful registration adds exactly one team, under a fresh id. */
  lemma OneTeamAdded(p: Platform, s: Store, a: Registration, o: Oracle)
    requires Configured(p) && Valid(s)
    requires a.registerNames ==> |a.names| <= |a.emails|
    requires Admitted(p, s, a, o)
    ensures s.nextId !in s.teams
    ensures Register(p, s, a, o).1.teams.Keys == s.teams.Keys + {s.nextId}
    ensures |Register(p, s, a, o).1.teams| == |s.teams| + 1
  {
    var team := Team(ShortName(p, a), p.hash(StoredPassword(p, a, o)), ChosenLogo(s, a, o), false);
    assert Register(p, s, a, o).1.teams == s.teams[s.nextId := team];
    InsertFresh(s.teams, s.nextId, team);
  }

  /** Inserting under a key that is not yet used grows a map by one entry. */
  lemma InsertFresh<K, V>(m: map<K, V>, k: K, v: V)
    requires k !in m
    ensures m[k := v].Keys == m.Keys + {k}
    ensures |m[k := v]| == |m| + 1
  {
  }

  /** Once a registration has used a token, no later registration gets past
      the token check with it: the second one creates no team and leaves the
      token table alone; past the policy and directory checks it answers
      with the generic failure. */
  lemma TokenSingleUse(p: Platform, s: Store, a1: Registration, o1: Oracle, a2: Registration, o2: Oracle)
    requires Configured(p) && Tokenized(p)
    requires a1.registerNames ==> |a1.names| <= |a1.emails|
    requires a2.registerNames ==> |a2.names| <= |a2.emails|
    requires Admitted(p, s, a1, o1) && a2.token == a1.token
    ensures var s1 := Register(p, s, a1, o1).1;
      s1.tokens[a1.token.value] == TokenRecord(true, Some(s.nextId)) &&
      !PassesToken(p, s1, a2) &&
      Register(p, s1, a2, o2).1 == s1 &&
      (PassesPolicy(p, a2) && PassesDirectory(p, o2) ==> Register(p, s1, a2, o2).0 == RegistrationFailed)
  {
    var s1 := Register(p, s, a1, o1).1;
    assert s1.tokens == UseToken(s.tokens, a1.token.value, s.nextId);
  }

  /** Names are compared after truncation: once a team is registered, any
      other name with the same first twenty characters is refused, whatever
      follows them, and no second team appears. */
  lemma SamePrefixRejected(p: Platform, s: Store, a1: Registration, o1: Oracle, a2: Registration, o2: Oracle)
    requires Configured(p)
    requires a1.registerNames ==> |a1.names| <= |a1.emails|
    requires a2.registerNames ==> |a2.names| <= |a2.emails|
    requires Admitted(p, s, a1, o1)
    requires Prefix(EffectiveName(p, a2), MaxNameLength) == Prefix(EffectiveName(p, a1), MaxNameLength)
    ensures var s1 := Register(p, s, a1, o1).1;
      NameTaken(s1.teams, ShortName(p, a2)) &&
      Register(p, s1, a2, o2).1.teams == s1.teams
  {
    var s1 := Register(p, s, a1, o1).1;
    assert s1.teams[s.nextId].name == ShortName(p, a2);
  }

  /** A successful registration with a roster appends member i as
      (names[i], emails[i], new id), in order, after the existing roster. */
  lemma RosterInOrder(p: Platform, s: Store, a: Registration, o: Oracle)
    requires Configured(p)
    requires a.registerNames && |a.names| <= |a.emails|
    requires Admitted(p, s, a, o)
    ensures var r := Register(p, s, a, o).1.roster;
      |r| == |s.roster| + |a.names| && r[..|s.roster|] == s.roster &&
      forall i :: 0 <= i < |a.names| ==> r[|s.roster| + i] == RosterMember(a.names[i], a.emails[i], s.nextId)
  {
    AppendedMembers(s.roster, a.names, a.emails, s.nextId);
    assert Register(p, s, a, o).1.roster == s.roster + Members(a.names, a.emails, s.nextId);
  }

  /** The positions of roster rows appended after an existing roster. */
  lemma AppendedMembers(roster: seq<RosterMember>, names: seq<string>, emails: seq<string>, teamId: int)
    requires |names| <= |emails|
    ensures var r := roster + Members(names, emails, teamId);
      |r| == |roster| + |names| && r[..|roster|] == roster &&
      forall i :: 0 <= i < |names| ==> r[|roster| + i] == RosterMember(names[i], emails[i], teamId)
  {
  }

  /** On the directory path the stored hash is that of the escrow secret.
      With an injective hash and a secret different from the user's
      password, the stored hash is not the hash of that password: the
      directory password is never persisted. */
  lemma EscrowStored(p: Platform, s: Store, a: Registration, o: Oracle)
    requires Configured(p) && LdapOn(p)
    requires a.registerNames ==> |a.names| <= |a.emails|
    requires Admitted(p, s, a, o)
    ensures Register(p, s, a, o).1.teams[s.nextId].passwordHash == p.hash(o.secret)
    ensures (forall x, y :: p.hash(x) == p.hash(y) ==> x == y) && o.secret != a.password ==>
      Register(p, s, a, o).1.teams[s.nextId].passwordHash != p.hash(a.password)
  {
  }

  /** Outside the directory path the name is not trimmed: the stored name
      is the first twenty characters of the raw name, so a leading blank is
      kept. */
  lemma RawNameStored(p: Platform, s: Store, a: Registration, o: Oracle)
    requires Configured(p) && !LdapOn(p)
    requires a.registerNames ==> |a.names| <= |a.emails|
    requires Admitted(p, s, a, o)
    ensures Register(p, s, a, o).1.teams[s.nextId].name == Prefix(a.teamname, MaxNameLength)
    ensures a.teamname != [] && IsTrimChar(a.teamname[0]) ==>
      Register(p, s, a, o).1.teams[s.nextId].name[0] == a.teamname[0]
  {
  }

  /** On the directory path the name is trimmed before it is cut to twenty
      characters and stored. */
  lemma TrimmedNameStored(p: Platform, s: Store, a: Registration, o: Oracle)
    requires Configured(p) && LdapOn(p)
    requires a.registerNames ==> |a.names| <= |a.emails|
    requires Admitted(p, s, a, o)
    ensures Register(p, s, a, o).1.teams[s.nextId].name == Prefix(Trim(a.teamname), MaxNameLength)
  {
  }

  /** The credentials a registration stores are the ones a login verifies:
      the new team verifies with exactly the passwords whose hash is that of
      the stored password, and in particular with the stored password. */
  lemma CredentialsStored(p: Platform, s: Store, a: Registration, o: Oracle)
    requires Configured(p)
    requires a.registerNames ==> |a.names| <= |a.emails|
    requires Admitted(p, s, a, o)
    ensures forall pw :: VerifiedTeam(p, Register(p, s, a, o).1, s.nextId, pw).Some? <==>
      p.hash(pw) == p.hash(StoredPassword(p, a, o))
    ensures VerifiedTeam(p, Register(p, s, a, o).1, s.nextId, StoredPassword(p, a, o)) ==
      Some(Team(ShortName(p, a), p.hash(StoredPassword(p, a, o)), ChosenLogo(s, a, o), false))
  {
    var s1 := Register(p, s, a, o).1;
    var team := Team(ShortName(p, a), p.hash(StoredPassword(p, a, o)), ChosenLogo(s, a, o), false);
    assert s1.teams[s.nextId] == team;
    forall pw ensures VerifiedTeam(p, s1, s.nextId, pw).Some? <==> p.hash(pw) == team.passwordHash {
    }
  }

  /** A blank name is refused even when everything else passes. */
  lemma BlankNameRefused(p: Platform, s: Store, a: Registration, o: Oracle)
    requires Configured(p)
    requires a.registerNames ==> |a.names| <= |a.emails|
    requires PassesPolicy(p, a) && PassesDirectory(p, o)
    requires forall k :: 0 <= k < |a.teamname| ==> IsTrimChar(a.teamname[k])
    ensures Register(p, s, a, o).0 == RegistrationFailed
    ensures Register(p, s, a, o).1.teams == s.teams
  {
  }

  /** After a successful login a second login, by any team, leaves the
      session as the first one left it. */
  lemma SecondLoginKeepsSession(p: Platform, s: Store, id1: int, pw1: string, c1: string, ip1: string,
                                id2: int, pw2: string, c2: string, ip2: string)
    requires Configured(p)
    requires Login(p, s, id1, pw1, c1, ip1).0.Ok?
    ensures var s1 := Login(p, s, id1, pw1, c1, ip1).1;
      s1.session.Some? && Login(p, s1, id2, pw2, c2, ip2).1 == s1
  {
  }
}
