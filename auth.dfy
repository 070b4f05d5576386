/** Accounts and login of modules/auth.py. The salted hash is the caller's
    function `h` applied to password ++ salt (SHA-256 in the source); the
    salt, the clock reading and the answer of the breached-password check
    for the password are inputs. `Comptes` holds the users table and the
    audit log, which each operation loads, extends and writes back. */
module Auth {
  import opened Common
  import opened Text
  import Ids
  import PasswordCheck

  datatype User = User(id: int, username: string, passwordHash: string, salt: string, createdAt: string)

  datatype Action = CreationCompte | Connexion

  /** One row of the audit log. */
  datatype LogEntry = LogEntry(timestamp: string, username: string, action: Action, succes: bool)

  // ---------------------------------------------------------------------
  // Password rules (`valider_mot_de_passe`)

  /** The rules, in the order they are checked. */
  datatype Rule = Longueur | Majuscule | Minuscule | Chiffre

  function Rank(r: Rule): nat
  {
    match r
    case Longueur => 0
    case Majuscule => 1
    case Minuscule => 2
    case Chiffre => 3
  }

  /** The message the source appends for a violated rule. */
  function Message(r: Rule): string
  {
    match r
    case Longueur => "Au moins 8 caractères requis."
    case Majuscule => "Au moins une majuscule requise."
    case Minuscule => "Au moins une minuscule requise."
    case Chiffre => "Au moins un chiffre requis."
  }

  predicate IsUpper(c: char) { 'A' <= c <= 'Z' }
  predicate IsLower(c: char) { 'a' <= c <= 'z' }

  predicate AnyUpper(pw: string) { exists i :: 0 <= i < |pw| && IsUpper(pw[i]) }
  predicate AnyLower(pw: string) { exists i :: 0 <= i < |pw| && IsLower(pw[i]) }
  predicate AnyDigit(pw: string) { exists i :: 0 <= i < |pw| && IsDigit(pw[i]) }

  predicate Violated(r: Rule, pw: string)
  {
    match r
    case Longueur => |pw| < 8
    case Majuscule => !AnyUpper(pw)
    case Minuscule => !AnyLower(pw)
    case Chiffre => !AnyDigit(pw)
  }

  /** The violated rules, each once, in checking order. */
  function Violations(pw: string): (v: seq<Rule>)
    ensures forall r :: r in v <==> Violated(r, pw)
    ensures forall i, j :: 0 <= i < j < |v| ==> Rank(v[i]) < Rank(v[j])
  {
    (if |pw| < 8 then [Longueur] else [])
    + (if !AnyUpper(pw) then [Majuscule] else [])
    + (if !AnyLower(pw) then [Minuscule] else [])
    + (if !AnyDigit(pw) then [Chiffre] else [])
  }

  /** `valider_mot_de_passe`: one error per violated rule, appended in
      checking order; valid exactly when there is none. */
  method ValiderMotDePasse(pw: string) returns (valide: bool, erreurs: seq<Rule>)
    ensures erreurs == Violations(pw)
    ensures valide <==> erreurs == []
  {
    erreurs := [];
    if |pw| < 8 {
      erreurs := erreurs + [Longueur];
    }
    if !AnyUpper(pw) {
      erreurs := erreurs + [Majuscule];
    }
    if !AnyLower(pw) {
      erreurs := erreurs + [Minuscule];
    }
    if !AnyDigit(pw) {
      erreurs := erreurs + [Chiffre];
    }
    valide := |erreurs| == 0;
  }

  // ---------------------------------------------------------------------
  // The users table

  function UserIds(us: seq<User>): seq<int>
  {
    Ids.Project(us, (u: User) => u.id)
  }

  /** `max([u["id"] for u in utilisateurs], default=0) + 1`. */
  function NouvelId(us: seq<User>): (r: int)
    ensures us == [] ==> r == 1
    ensures forall i :: 0 <= i < |us| ==> us[i].id < r
    ensures us != [] ==> exists i :: 0 <= i < |us| && r == us[i].id + 1
  {
    var ids := UserIds(us);
    assert forall i :: 0 <= i < |ids| ==> ids[i] == us[i].id;
    Ids.NextId(ids)
  }

  /** `trouver_utilisateur`: the first user whose name is exactly `username`. */
  function TrouverUtilisateur(us: seq<User>, username: string): (r: Option<User>)
    ensures r.None? <==> forall j :: 0 <= j < |us| ==> us[j].username != username
    ensures r.Some? ==> exists i :: 0 <= i < |us| && us[i] == r.value && r.value.username == username
                          && forall j :: 0 <= j < i ==> us[j].username != username
  {
    if us == [] then None
    else if us[0].username == username then Some(us[0])
    else
      var r := TrouverUtilisateur(us[1..], username);
      assert forall j :: 1 <= j < |us| ==> us[j] == us[1..][j - 1];
      if r.Some? then
        var i :| 0 <= i < |us[1..]| && us[1..][i] == r.value && r.value.username == username
                 && forall j :: 0 <= j < i ==> us[1..][j].username != username;
        assert us[i + 1] == r.value;
        r
      else r
  }

  predicate UniqueUsernames(us: seq<User>)
  {
    forall i, j :: 0 <= i < j < |us| ==> us[i].username != us[j].username
  }

  // ---------------------------------------------------------------------
  // Account creation and login as functions of the loaded table

  datatype RegisterError =
    | UtilisateurExistant
    | MotDePasseInvalide(regles: seq<Rule>)
    | MotDePasseCompromis(count: int)

  /** What `creer_compte` ends in: a new user, a refusal, or the exception
      the breached-password check raised (which nothing catches). */
  datatype RegisterResult = Cree(user: User) | Refuse(error: RegisterError) | Exception

  /** The users table after an operation, its result, and the log rows it appended. */
  datatype AuthStep<+R> = AuthStep(users: seq<User>, result: R, log: seq<LogEntry>)

  /** `creer_compte(username, mot_de_passe)`: `breach` is what the
      breached-password check answers for this password, `salt` what
      `generer_salt` draws, `now` the clock reading. */
  function Register(us: seq<User>, username: string, pw: string, breach: PasswordCheck.Verdict,
                    salt: string, now: string, h: string -> string): (r: AuthStep<RegisterResult>)
    ensures r.result.Cree? ==> r.users == us + [r.result.user]
    ensures !r.result.Cree? ==> r.users == us
    ensures |r.log| == if r.result.Exception? then 0 else 1
  {
    var refuse := (e: RegisterError) =>
      AuthStep(us, Refuse(e), [LogEntry(now, username, CreationCompte, false)]);
    if TrouverUtilisateur(us, username).Some? then refuse(UtilisateurExistant)
    else if Violations(pw) != [] then refuse(MotDePasseInvalide(Violations(pw)))
    else match breach
      case Compromis(n) => refuse(MotDePasseCompromis(n))
      case ValueError => AuthStep(us, Exception, [])
      case _ =>
        var user := User(NouvelId(us), username, h(pw + salt), salt, now);
        AuthStep(us + [user], Cree(user), [LogEntry(now, username, CreationCompte, true)])
  }

  datatype LoginError = UtilisateurIntrouvable | MotDePasseIncorrect

  /** `verifier_connexion(username, mot_de_passe)`: hash the password with
      the stored salt and compare with the stored hash. */
  function Login(us: seq<User>, username: string, pw: string, now: string,
                 h: string -> string): (r: AuthStep<Result<User, LoginError>>)
    ensures r.users == us
    ensures |r.log| == 1 && r.log[0].succes == r.result.Ok?
  {
    match TrouverUtilisateur(us, username)
    case None => AuthStep(us, Err(UtilisateurIntrouvable), [LogEntry(now, username, Connexion, false)])
    case Some(u) =>
      if h(pw + u.salt) == u.passwordHash then
        AuthStep(us, Ok(u), [LogEntry(now, username, Connexion, true)])
      else AuthStep(us, Err(MotDePasseIncorrect), [LogEntry(now, username, Connexion, false)])
  }

  class Comptes {
    /** The rows of the users table. */
    var utilisateurs: seq<User>
    /** The rows of the audit log. */
    var journal: seq<LogEntry>

    constructor (us: seq<User>, log: seq<LogEntry>)
      ensures utilisateurs == us && journal == log
    {
      utilisateurs := us;
      journal := log;
    }

    /** `enregistrer_log`: append one row to the audit log. */
    method EnregistrerLog(now: string, username: string, action: Action, succes: bool)
      modifies this`journal
      ensures journal == old(journal) + [LogEntry(now, username, action, succes)]
    {
      journal := journal + [LogEntry(now, username, action, succes)];
    }

    method CreerCompte(username: string, pw: string, breach: PasswordCheck.Verdict,
                       salt: string, now: string, h: string -> string) returns (r: RegisterResult)
      modifies this
      ensures var s := Register(old(utilisateurs), username, pw, breach, salt, now, h);
        utilisateurs == s.users && r == s.result && journal == old(journal) + s.log
    {
      var us := utilisateurs;
      if TrouverUtilisateur(us, username).Some? {
        EnregistrerLog(now, username, CreationCompte, false);
        return Refuse(UtilisateurExistant);
      }
      var valide, erreurs := ValiderMotDePasse(pw);
      if !valide {
        EnregistrerLog(now, username, CreationCompte, false);
        return Refuse(MotDePasseInvalide(erreurs));
      }
      if breach.ValueError? {
        return Exception;
      }
      if breach.Compromis? {
        EnregistrerLog(now, username, CreationCompte, false);
        return Refuse(MotDePasseCompromis(breach.count));
      }
      var passwordHash := h(pw + salt);
      var nouvel := User(NouvelId(us), username, passwordHash, salt, now);
      us := us + [nouvel];
      utilisateurs := us;
      EnregistrerLog(now, username, CreationCompte, true);
      r := Cree(nouvel);
    }

    method VerifierConnexion(username: string, pw: string, now: string, h: string -> string)
      returns (r: Result<User, LoginError>)
      modifies this`journal
      ensures var s := Login(utilisateurs, username, pw, now, h);
        r == s.result && journal == old(journal) + s.log
    {
      var found := TrouverUtilisateur(utilisateurs, username);
      if found.None? {
        EnregistrerLog(now, username, Connexion, false);
        return Err(UtilisateurIntrouvable);
      }
      var u := found.value;
      var saisi := h(pw + u.salt);
      if saisi == u.passwordHash {
        EnregistrerLog(now, username, Connexion, true);
        return Ok(u);
      }
      EnregistrerLog(now, username, Connexion, false);
      r := Err(MotDePasseIncorrect);
    }
  }

  // ---------------------------------------------------------------------
  // Properties

  /** The checks run in the order duplicate, weak, compromised: each
      refusal happens exactly when the earlier checks passed and its own
      failed, and a refusal (or the exception) leaves the users table as it
      was. A breached-password check that could not answer does not block. */
  lemma RegisterCheckOrder(us: seq<User>, username: string, pw: string, breach: PasswordCheck.Verdict,
                           salt: string, now: string, h: string -> string)
    ensures var s := Register(us, username, pw, breach, salt, now, h);
      var exists_ := TrouverUtilisateur(us, username).Some?;
      && (s.result == Refuse(UtilisateurExistant) <==> exists_)
      && (s.result.Refuse? && s.result.error.MotDePasseInvalide? <==> !exists_ && Violations(pw) != [])
      && (s.result.Refuse? && s.result.error.MotDePasseInvalide? ==> s.result.error.regles == Violations(pw))
      && (s.result.Refuse? && s.result.error.MotDePasseCompromis? <==>
            !exists_ && Violations(pw) == [] && breach.Compromis?)
      && (s.result.Cree? <==> !exists_ && Violations(pw) == [] && (breach.NonCompromis? || breach.Inconnu?))
      && (!s.result.Cree? ==> s.users == us)
  {
  }

  /** A created user gets the next id and is appended at the end, so user
      names stay unique and ids stay increasing. */
  lemma RegisterAppends(us: seq<User>, username: string, pw: string, breach: PasswordCheck.Verdict,
                        salt: string, now: string, h: string -> string)
    requires Register(us, username, pw, breach, salt, now, h).result.Cree?
    ensures var s := Register(us, username, pw, breach, salt, now, h);
      && s.users == us + [s.result.user]
      && s.result.user.id == NouvelId(us)
      && s.result.user.username == username
      && s.result.user.salt == salt
      && s.result.user.passwordHash == h(pw + salt)
      && (UniqueUsernames(us) ==> UniqueUsernames(s.users))
  {
  }

  /** Every call that returns writes exactly one log row, for this user and
      action, whose success flag is the outcome; the exception writes none. */
  lemma OneLogEntryPerCall(us: seq<User>, username: string, pw: string, breach: PasswordCheck.Verdict,
                           salt: string, now: string, h: string -> string)
    ensures var s := Register(us, username, pw, breach, salt, now, h);
      && (s.result.Exception? <==> s.log == [])
      && (!s.result.Exception? ==> s.log == [LogEntry(now, username, CreationCompte, s.result.Cree?)])
    ensures var l := Login(us, username, pw, now, h);
      l.log == [LogEntry(now, username, Connexion, l.result.Ok?)] && l.users == us
  {
  }

  /** Login succeeds exactly when the user exists and hashing the password
      with the stored salt gives the stored hash; it then returns that user. */
  lemma LoginSpec(us: seq<User>, username: string, pw: string, now: string, h: string -> string)
    ensures var l := Login(us, username, pw, now, h);
      var u := TrouverUtilisateur(us, username);
      && (l.result.Ok? <==> u.Some? && h(pw + u.value.salt) == u.value.passwordHash)
      && (l.result.Ok? ==> l.result.value == u.value)
      && (l.result == Err(UtilisateurIntrouvable) <==> u.None?)
  {
  }

  /** A user that has just been created can log in with the same password. */
  lemma {:induction false} RegisterThenLogin(us: seq<User>, username: string, pw: string,
                                             breach: PasswordCheck.Verdict, salt: string,
                                             now: string, later: string, h: string -> string)
    requires Register(us, username, pw, breach, salt, now, h).result.Cree?
    ensures var s := Register(us, username, pw, breach, salt, now, h);
      Login(s.users, username, pw, later, h).result == Ok(s.result.user)
  {
    var s := Register(us, username, pw, breach, salt, now, h);
    var user := s.result.user;
    assert TrouverUtilisateur(us, username).None?;
    assert s.users == us + [user];
    var found := TrouverUtilisateur(s.users, username);
    assert found == Some(user) by {
      assert forall j :: 0 <= j < |us| ==> s.users[j].username != username;
      assert s.users[|us|].username == username;
      if found.Some? {
        var i :| 0 <= i < |s.users| && s.users[i] == found.value && found.value.username == username
                 && forall j :: 0 <= j < i ==> s.users[j].username != username;
        assert i == |us|;
      }
    }
  }
}
