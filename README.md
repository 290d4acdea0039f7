# Team registration and login of the fbctf index controller, in Dafny

This project models the registration and login decisions of fbctf's
`IndexAjaxController`. That is the controller behind the public index page
of the capture-the-flag platform. It has three actions:

- `register_team` and `register_names` run the registration pipeline. The
  steps, in order: registration flag, password strength, optional
  directory (LDAP) check with password escrow, optional invitation token,
  logo, name checks, team creation, roster, token use, and an automatic
  login.
- `login_team` resolves a team by id or by name, verifies its password,
  applies the login gate (admins pass a disabled login) and fills the
  session unless one is already active.

The collaborators the controller calls are plain in-memory state:

- the configuration table;
- the team table, with a next-id counter;
- the token table;
- the logo names;
- the roster table;
- the connection's optional session.

Files:

- `php.dfy` (module `Php`): PHP's `trim` with its default character list,
  and `substr($s, 0, $n)`.
- `model.dfy` (module `Model`): the entities as datatypes, and the store
  invariant `Valid`. It also holds specification functions `Register`,
  `Login` and `HandleAction`, from a store snapshot to a response and a new
  snapshot. Their `ensures` clauses state:
  - which message each configuration and input combination produces;
  - that early failures change no store;
  - what a successful registration adds;
  - how the login gate and the session behave.
- `controller.dfy` (module `Controller`): the class `IndexAjaxController`,
  whose fields are the stores. Its methods follow the controller's own
  sequence of reads, checks and writes, including the roster loop. Each is
  proved to reach exactly the response and state the specification
  functions give, and to keep `Valid`.
- `properties.dfy` (module `Properties`): facts that relate several calls.
  A token cannot be used twice. Names are compared after truncation. The
  roster is appended in order. The escrow secret's hash is what gets
  stored. A second login keeps the session.

Some inputs are parameters (datatype `Oracle`):

- the outcome of the directory connect and bind;
- the random escrow secret and the random CSRF token;
- the custom-logo creation result and the random default logo;
- the client address.

The hash function and the password-pattern matcher are uninterpreted
function values in `Platform`.

Where the design description and the code differ, the model follows the
code:

- The team name is trimmed only on the directory path
  (src/controllers/ajax/IndexAjaxController.php:147). Elsewhere the
  20-character prefix is taken from the raw name (line 199), so leading
  blanks are stored (`Properties.RawNameStored`).
- A custom logo is created (line 180) before the blank-name and
  duplicate-name checks. A later name failure therefore leaves the new logo
  behind (the `ensures` of `Model.Register` about a failure at the name
  checks).
- The name check and the team creation are two separate steps, and so are
  the token check and the token use. Token use is an unconditional update
  that matches no row when the token is missing (line 218). Neither is an
  atomic insert-if-absent or consume-if-unused.

## Model

| member | source | states |
|---|---|---|
| Php.TrimLeft | src/controllers/ajax/IndexAjaxController.php:147 | the result is a suffix of the input, does not start with a trim character, and everything dropped is a trim character |
| Php.TrimRight | src/controllers/ajax/IndexAjaxController.php:147 | the result is a prefix of the input, does not end with a trim character, and everything dropped is a trim character |
| Php.Trim | src/controllers/ajax/IndexAjaxController.php:194 | PHP trim: a contiguous piece of the input whose dropped characters at both ends are all space, tab, newline, carriage return, NUL or vertical tab; empty exactly when the input consists of those only, and otherwise starting and ending with a character outside that list |
| Php.TrimIdempotent | src/controllers/ajax/IndexAjaxController.php:194 | trimming a trimmed name changes nothing, so the blank check sees the same thing on the directory path |
| Php.Prefix | src/controllers/ajax/IndexAjaxController.php:199 | substr($s, 0, $n): a prefix of the input of length min(len, n) |
| Model.EffectiveName | src/controllers/ajax/IndexAjaxController.php:147 | the working name is the raw name off the directory path and its trim on it; it is never longer than the raw name, and its trim is the raw name's trim, so the blank check agrees on both paths |
| Model.ShortName | src/controllers/ajax/IndexAjaxController.php:198-199 | the stored name is the prefix of the working name of length min(length, 20) |
| Model.StoredPassword | src/controllers/ajax/IndexAjaxController.php:159-163 | the password whose hash is stored is the escrow secret on the directory path; it is the user's password exactly off the directory path or when the secret happens to equal it |
| Model.LoginPassword | src/controllers/ajax/IndexAjaxController.php:220-224 | both branches of the automatic login use the user's own password: the kept directory password on the directory path, the stored password otherwise |
| Model.NameTaken | src/controllers/ajax/IndexAjaxController.php:202 | genTeamExist: the name is among the names in the team table |
| Model.TokenUsable | src/controllers/ajax/IndexAjaxController.php:169 | genCheck: the token is among the unused tokens of the table |
| Model.Members | src/controllers/ajax/IndexAjaxController.php:210-214 | the roster rows for a team: one per name, row i pairing names[i] with emails[i] and the team id |
| Model.UseToken | src/controllers/ajax/IndexAjaxController.php:216-219 | the used token becomes (used, new team id); every other token is unchanged and no token appears or disappears |
| Model.AddTeam | src/controllers/ajax/IndexAjaxController.php:205-207 | creation inserts the team under the next id; on a valid store with a free name and an existing logo the store stays valid |
| Model.AddRoster | src/controllers/ajax/IndexAjaxController.php:211-213 | roster rows are appended; rows for existing teams keep the store valid |
| Model.ConsumeToken | src/controllers/ajax/IndexAjaxController.php:218 | marking a token used by an existing team keeps the store valid |
| Model.LogosAfterUpload | src/controllers/ajax/IndexAjaxController.php:179-182 | a successful upload adds the uploaded logo; otherwise the logo store is unchanged; nothing else is added |
| Model.Upload | src/controllers/ajax/IndexAjaxController.php:179-186 | storing the uploaded logo changes only the logo store and keeps the store valid |
| Model.ChosenLogo | src/controllers/ajax/IndexAjaxController.php:176-191 | the uploaded logo when the upload succeeded; otherwise the requested logo if it exists, and the random default if not; an existing logo once the random default is one |
| Model.Login | src/controllers/ajax/IndexAjaxController.php:234-278 | only the session can change; an active session is never overwritten; login succeeds exactly for a verified team when login is enabled or the team is an admin; every failure is (Login failed, login) with nothing changed; the redirect is admin for admins and game otherwise; a new session holds the team's id, name, the fresh CSRF token, the client address and the admin flag |
| Model.Register | src/controllers/ajax/IndexAjaxController.php:101-232 | registration disabled gives Registration failed, a weak password Password too simple, an unreachable directory or a failed bind its own message, all with no store changed; every later failure is Registration failed; failures before the name checks change nothing and a name failure keeps only the uploaded logo; a team is created exactly when every stage passes, under the next id, with the 20-character prefix, the hash of the stored password (the escrow secret on the directory path) and the chosen logo; the roster is appended and the token used only then; the automatic login answers only Login failed or (Login succesful, game); it fails when login is disabled, and succeeds for a non-directory registration when it is enabled; an active session is kept, and an empty one is filled with the new team's id and name, the fresh CSRF token, the client address and no admin flag exactly when the login succeeds |
| Model.Provision | src/controllers/ajax/IndexAjaxController.php:176-231 | a failed upload changes nothing; a blank or taken name keeps only the uploaded logo; otherwise one team, the roster and the token use are committed, the login answers only Login failed or (Login succesful, game), and the session is kept or filled as by Model.Register |
| Model.Commit | src/controllers/ajax/IndexAjaxController.php:204-225 | the team, the roster rows and the token use that follow creation, and an automatic login that succeeds exactly when the login password hashes to the stored hash and otherwise fails with Login failed, these being its only two answers; an active session is kept and an empty one is filled for the new team exactly on success |
| Model.CommitKeepsValid | src/controllers/ajax/IndexAjaxController.php:204-225 | creating a team with a free name and an existing logo, its roster rows, the token use and the login keep the store invariant |
| Model.RegisterKeepsValid | src/controllers/ajax/IndexAjaxController.php:101-232 | registration keeps ids fresh, names unique, logos existing and every roster row, token and session pointing at an existing team |
| Model.TeamIdByName | src/controllers/ajax/IndexAjaxController.php:82-85 | the resolved id belongs to a team with that name, and in a valid store it is the only such team |
| Model.HandleAction | src/controllers/ajax/IndexAjaxController.php:37-99 | none and any action outside the three of getActions give Invalid action; the two registration actions register; login_team logs in by the given id when login_select is 1, otherwise by the id of the team with that name, and fails with no change when no team has it |
| Model.HandleActionKeepsValid | src/controllers/ajax/IndexAjaxController.php:37-99 | every action keeps the store invariant |
| Controller.IndexAjaxController.CreateTeam | src/controllers/ajax/IndexAjaxController.php:206-207 | inserts a non-admin team under the next id, returns that id and bumps the counter |
| Controller.IndexAjaxController.AddTeamData | src/controllers/ajax/IndexAjaxController.php:212 | appends one roster row |
| Controller.IndexAjaxController.UseRegistrationToken | src/controllers/ajax/IndexAjaxController.php:218 | marks the token used by the team |
| Controller.IndexAjaxController.CreateCustomLogo | src/controllers/ajax/IndexAjaxController.php:180 | stores the uploaded logo if its creation succeeded and returns the creation result |
| Controller.IndexAjaxController.LoginTeam | src/controllers/ajax/IndexAjaxController.php:234-278 | the response and session are those of Model.Login |
| Controller.IndexAjaxController.RegisterTeam | src/controllers/ajax/IndexAjaxController.php:101-174 | flag, password, directory and token checks in the source's order; response and stores are those of Model.Register |
| Controller.IndexAjaxController.ProvisionTeam | src/controllers/ajax/IndexAjaxController.php:176-203 | logo resolution and name checks; response and stores are those of Model.Provision |
| Controller.IndexAjaxController.CommitTeam | src/controllers/ajax/IndexAjaxController.php:204-225 | creation, roster, token use and login; response and stores are those of Model.Commit |
| Controller.IndexAjaxController.AddRosterMembers | src/controllers/ajax/IndexAjaxController.php:210-214 | the loop appends exactly Members(names, emails, id), in order |
| Controller.IndexAjaxController.HandleAction | src/controllers/ajax/IndexAjaxController.php:37-99 | the response and stores are those of Model.HandleAction, with the team picked by name being the one the model resolves |
| Properties.OneTeamAdded | src/controllers/ajax/IndexAjaxController.php:202-207 | a successful registration on a valid store adds exactly one team, under an id that was free |
| Properties.TokenSingleUse | src/controllers/ajax/IndexAjaxController.php:167-174 | after a tokenized registration the token is (used, new id); a second registration with it fails the token check, changes nothing and answers Registration failed |
| Properties.SamePrefixRejected | src/controllers/ajax/IndexAjaxController.php:199-203 | after a registration, a name with the same 20-character prefix is taken and its registration creates no team |
| Properties.RosterInOrder | src/controllers/ajax/IndexAjaxController.php:210-214 | the roster grows by the existing rows followed by (names[i], emails[i], new id) for every i, in order |
| Properties.EscrowStored | src/controllers/ajax/IndexAjaxController.php:159-163 | on the directory path the stored hash is that of the escrow secret; with an injective hash and a secret that differs from the password it is not the password's hash, so the directory password is never persisted |
| Properties.RawNameStored | src/controllers/ajax/IndexAjaxController.php:194-199 | outside the directory path the stored name is the first 20 characters of the raw name, so a leading blank is stored with it |
| Properties.TrimmedNameStored | src/controllers/ajax/IndexAjaxController.php:147-199 | on the directory path the stored name is the first 20 characters of the trimmed name |
| Properties.CredentialsStored | src/controllers/ajax/IndexAjaxController.php:204-207 | the new team verifies at login with exactly the passwords whose hash is the stored password's hash, and with the stored password it yields the created team |
| Properties.BlankNameRefused | src/controllers/ajax/IndexAjaxController.php:194-196 | a name of trim characters only is refused with Registration failed and no team is created |
| Properties.SecondLoginKeepsSession | src/controllers/ajax/IndexAjaxController.php:249-268 | after a successful login the session is active and a second login, by any team, leaves every store as it was |

## Left out

- Request filtering (`getFilters`), `must_have_*` parameter extraction and the JSON decoding of `names` and `emails` belong to the request framework. The model takes already-decoded parameters (`Model.Params`).
- `getActions` is only the constant `Model.Actions`. The base-class check that an action is listed is not part of this model.
- Configuration: every key read is assumed present (`Model.Configured`). The fatal path for a missing key is not modelled. `ldap_server`, `ldap_port` and `ldap_domain_suffix` only feed the directory connection, which is an oracle.
- The LDAP connect and bind are two boolean oracle inputs. The bind user name (trimmed name plus domain suffix) is therefore not modelled.
- The 16 random bytes in base 62 (escrow secret and CSRF token) are opaque string inputs.
- `Team::generateHash` is an uninterpreted function.
- `Team::genVerifyCredentials` is modelled as "the id exists and the stored hash equals the hash of the password". That function is not part of this model. Any directory-aware check or active-team filter inside it is left out. Under this assumption, the automatic login after a directory registration compares the directory password with the escrow hash and succeeds only when the two hash alike (the clause of `Model.Register` about an open login). A directory-aware check would let it succeed.
- The password-policy `preg_match` is an uninterpreted matcher on (pattern, password). The current pattern is a fixed string of `Platform`.
- `Logo::genCreateCustom` decoding and `Logo::genRandomLogo` randomness are oracle inputs. The random logo is required to be an existing logo. `logoType` is accepted and, as in the source, never used.
- `Team::genCreate` always succeeds here with the next id, which is at least 1. The `if ($team_id)` failure branch (lines 226-228) therefore cannot be reached and is not modelled.
- Team names are compared exactly. A database collation that ignores case is not modelled.
- `trim` and `substr` work on characters, not bytes. Multi-byte names are not modelled.
- `Controller.IndexAjaxController.RegisterTeam`: the roster loop indexes `emails[i]` for every `i < |names|` with no guard. The model requires `|names| <= |emails|` when a roster is registered.
- `SessionUtils::sessionRefresh` (a freshness marker) is not modelled.
- The session is a record, not string-valued keys. The team id is an integer and `admin` a flag, instead of `strval` of each.
- The client address (`REMOTE_ADDR`) is an oracle input.
- Asynchronous suspension and concurrent requests racing on a name or a token are not modelled. The model is one sequential request.
- The HTTP and JSON encoding of responses is not modelled. Messages are compared as strings and kept verbatim, including "Login succesful".
