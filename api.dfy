/** The request logic of api.py that does not depend on Flask: the token
    gate of `token_requis` and `admin_requis` (with token decoding as a
    parameter), pagination in `get_produits`, the tallies of
    `get_admin_stats`, and the user projection of `get_all_users`. */
module Api {
  import opened Common
  import opened Text
  import opened Produits
  import opened Commandes
  import Stats
  import Auth

  // ---------------------------------------------------------------------
  // Token gate

  const Bearer: string := "Bearer "

  /** `if token.startswith("Bearer "): token = token[7:]`. */
  function StripBearer(token: string): (r: string)
    ensures StartsWith(token, Bearer) ==> token == Bearer + r
    ensures !StartsWith(token, Bearer) ==> r == token
  {
    if StartsWith(token, Bearer) then
      assert token == token[..7] + token[7..];
      token[7..]
    else token
  }

  lemma StripBearerPrefixed(t: string)
    ensures StripBearer(Bearer + t) == t
  {
    assert (Bearer + t)[..|Bearer|] == Bearer;
  }

  /** What `jwt.decode` gives: the payload's claims, or one of the two
      exceptions the handlers catch. */
  datatype Decoded = Valid(claims: map<string, string>) | Expired | Invalid

  /** How a gated request ends before reaching the handler, or that it does.
      `KeyError` is the uncaught `data["username"]` on a token without that claim. */
  datatype Gate = Allow(utilisateur: string, role: string) | Deny(status: int, erreur: string) | KeyError

  /** `data.get("role", "user")`. */
  function RoleOf(claims: map<string, string>): string
  {
    if "role" in claims then claims["role"] else "user"
  }

  /** The body of `token_requis` (`admin` false) and `admin_requis` (`admin`
      true), given the `Authorization` header (None when absent). */
  function Authorize(header: Option<string>, decode: string -> Decoded, admin: bool): (g: Gate)
    ensures g.Deny? ==> g.status == 401 || (admin && g.status == 403)
    ensures header.None? ==> g.Deny? && g.status == 401
  {
    if header.None? || header.value == "" then Deny(401, "Token manquant")
    else match decode(StripBearer(header.value))
      case Expired => Deny(401, "Token expiré")
      case Invalid => Deny(401, "Token invalide")
      case Valid(claims) =>
        if "username" !in claims then KeyError
        else if admin && RoleOf(claims) != "admin" then Deny(403, "Accès refusé. Droits administrateur requis.")
        else Allow(claims["username"], RoleOf(claims))
  }

  /** A request passes exactly when it carries a non-empty header whose token
      (without its "Bearer " prefix) decodes to claims with a username, and
      for the admin gate the role, "user" when absent, is "admin". A missing
      or empty header and a token that does not decode give 401; a
      non-admin role at the admin gate gives 403. */
  lemma AuthorizeSpec(header: Option<string>, decode: string -> Decoded, admin: bool)
    ensures var g := Authorize(header, decode, admin);
      && (g.Allow? <==>
            && header.Some? && header.value != ""
            && decode(StripBearer(header.value)).Valid?
            && "username" in decode(StripBearer(header.value)).claims
            && (admin ==> RoleOf(decode(StripBearer(header.value)).claims) == "admin"))
      && (g.Allow? ==> g.utilisateur == decode(StripBearer(header.value)).claims["username"]
                       && g.role == RoleOf(decode(StripBearer(header.value)).claims))
      && (g.Allow? && admin ==> g.role == "admin")
      && (g.Deny? && g.status == 401 <==>
            header.None? || header.value == "" || !decode(StripBearer(header.value)).Valid?)
      && (g.Deny? && g.status == 403 ==> admin)
  {
  }

  /** The admin gate is the token gate plus the role check. */
  lemma AdminGateStricter(header: Option<string>, decode: string -> Decoded)
    ensures Authorize(header, decode, true).Allow? ==> Authorize(header, decode, false) == Authorize(header, decode, true)
    ensures !Authorize(header, decode, false).Allow? ==> Authorize(header, decode, false) == Authorize(header, decode, true)
  {
  }

  /** The claims `login` signs for a user: the username, and the user's
      role, "user" by default; user records carry no role. */
  function LoginClaims(u: Auth.User): map<string, string>
  {
    map["username" := u.username, "role" := "user"]
  }

  /** A token issued by `login`, sent with the "Bearer " prefix, passes the
      token gate as that user with role "user", and is refused by the admin
      gate with 403. */
  lemma LoginTokenNotAdmin(u: Auth.User, token: string, decode: string -> Decoded)
    requires decode(token) == Valid(LoginClaims(u))
    ensures Authorize(Some(Bearer + token), decode, false) == Allow(u.username, "user")
    ensures Authorize(Some(Bearer + token), decode, true).Deny?
    ensures Authorize(Some(Bearer + token), decode, true).status == 403
  {
    StripBearerPrefixed(token);
  }

  // ---------------------------------------------------------------------
  // Pagination (`get_produits`)

  /** A slice bound as Python adjusts it for a sequence of length `n`. */
  function Bound(i: int, n: nat): (r: nat)
    ensures r <= n
    ensures 0 <= i <= n ==> r == i
    ensures i > n ==> r == n
    ensures -(n as int) <= i < 0 ==> r as int == n as int + i
    ensures i < -(n as int) ==> r == 0
  {
    if i < 0 then (if i + n < 0 then 0 else i + n)
    else if i > n then n else i
  }

  /** `s[a:b]` in Python. */
  function PySlice<T>(s: seq<T>, a: int, b: int): (r: seq<T>)
    ensures |r| == if Bound(a, |s|) <= Bound(b, |s|) then Bound(b, |s|) - Bound(a, |s|) else 0
    ensures forall j :: 0 <= j < |r| ==> r[j] == s[Bound(a, |s|) + j]
  {
    var lo := Bound(a, |s|);
    var hi := Bound(b, |s|);
    if lo <= hi then s[lo..hi] else []
  }

  /** Python's `//`. */
  function FloorDiv(a: int, b: int): (q: int)
    requires b != 0
    ensures b > 0 ==> b * q <= a < b * q + b
    ensures b < 0 ==> b * q >= a > b * q + b
  {
    if b > 0 then a / b else (-a) / (-b)
  }

  datatype PageResult<T> = Page(produits: seq<T>, total: nat, page: int, pages: int) | ZeroDivisionError

  /** The response of `get_produits` for query values `page` and `limite`. */
  function Paginer<T>(s: seq<T>, page: int, limite: int): (r: PageResult<T>)
    ensures r.ZeroDivisionError? <==> limite == 0
    ensures r.Page? ==> r.total == |s| && r.page == page && |r.produits| <= |s|
  {
    var debut := (page - 1) * limite;
    var fin := debut + limite;
    if limite == 0 then ZeroDivisionError
    else Page(PySlice(s, debut, fin), |s|, page, FloorDiv(|s| + limite - 1, limite))
  }

  lemma MulMono(a: int, b: int, c: int)
    requires a <= b && c > 0
    ensures a * c <= b * c
  {
    assert b * c - a * c == (b - a) * c;
  }

  lemma MulSign(a: int, c: int)
    requires c > 0
    ensures a >= 0 ==> a * c >= 0
    ensures a <= 0 ==> a * c <= 0
  {
    if a >= 0 {
      MulMono(0, a, c);
    } else {
      MulMono(a, 0, c);
    }
  }

  lemma NegativeStartNonPositiveEnd(page: int, limite: int)
    requires limite > 0 && (page - 1) * limite < 0
    ensures (page - 1) * limite + limite <= 0
  {
    MulSign(page - 1, limite);
    MulSign(page, limite);
    assert page * limite == (page - 1) * limite + limite;
  }

  /** For a positive `limite`: the page holds at most `limite` items; for
      `page` at least 1 it is the run of items from index (page-1)*limite;
      `total` is the length, whatever the page; `pages` is the ceiling of
      total / limite. A zero `limite` raises. */
  lemma PaginerSpec<T>(s: seq<T>, page: int, limite: int)
    ensures limite == 0 <==> Paginer(s, page, limite).ZeroDivisionError?
    ensures limite > 0 ==>
      var r := Paginer(s, page, limite);
      var debut := (page - 1) * limite;
      && |r.produits| <= limite
      && (debut >= 0 ==> r.produits == s[Bound(debut, |s|)..Bound(debut + limite, |s|)])
      && r.total == |s|
      && (r.pages - 1) * limite < |s| <= r.pages * limite
  {
    if limite > 0 {
      var debut := (page - 1) * limite;
      if debut < 0 {
        NegativeStartNonPositiveEnd(page, limite);
      }
      var q := FloorDiv(|s| + limite - 1, limite);
      assert (q - 1) * limite == q * limite - limite;
    }
  }

  /** Item `i` is on page i // limite + 1, at position i % limite, and that
      page is one of the `pages` pages. */
  lemma PaginerCovers<T>(s: seq<T>, limite: int, i: nat)
    requires limite > 0 && i < |s|
    ensures var p := i / limite + 1;
      var r := Paginer(s, p, limite);
      && 1 <= p <= r.pages
      && i % limite < |r.produits| && r.produits[i % limite] == s[i]
  {
    var d := i / limite;
    var m := i % limite;
    var p := d + 1;
    var debut := (p - 1) * limite;
    assert debut == d * limite;
    assert i == debut + m;
    MulMono(0, d, limite);
    var r := Paginer(s, p, limite);
    assert r.produits == s[debut..Bound(debut + limite, |s|)];
    var q := r.pages;
    assert (q - 1) * limite < |s| <= q * limite by {
      var a := |s| + limite - 1;
      assert limite * q <= a < limite * q + limite;
      assert (q - 1) * limite == q * limite - limite;
    }
    if q < p {
      MulMono(q, d, limite);
      assert false;
    }
  }

  /** A page number of 0 or below is not rejected either: page 0 is empty,
      and a negative page is the run that ends (-page) x limite items
      before the end of the list, as Python counts negative slice bounds. */
  lemma PaginerNonPositivePage<T>(s: seq<T>, page: int, limite: int)
    requires limite > 0 && page <= 0
    ensures page == 0 ==> Paginer(s, page, limite).produits == []
    ensures page < 0 ==>
      var debut := (page - 1) * limite;
      var lo := if |s| + debut > 0 then |s| + debut else 0;
      var hi := if |s| + debut + limite > 0 then |s| + debut + limite else 0;
      Paginer(s, page, limite).produits == s[lo..hi]
  {
    var debut := (page - 1) * limite;
    MulSign(page - 1, limite);
    MulSign(page, limite);
    assert page * limite == debut + limite;
    if page < 0 {
      assert debut + limite < 0 by {
        MulMono(page, -1, limite);
      }
    }
  }

  /** A negative `limite` is not rejected: page 1 with `limite` -1 lists
      every item but the last. */
  lemma PaginerNegativeLimite<T>(s: seq<T>)
    requires |s| >= 2
    ensures Paginer(s, 1, -1).produits == s[..|s| - 1]
  {
  }

  // ---------------------------------------------------------------------
  // Admin tallies (`get_admin_stats`)

  function CountStatut(cs: seq<Order>, st: Statut): nat
  {
    if cs == [] then 0 else CountStatut(cs[..|cs| - 1], st) + (if cs[|cs| - 1].statut == st then 1 else 0)
  }

  function StockTotal(ps: seq<Product>): int
  {
    if ps == [] then 0 else StockTotal(ps[..|ps| - 1]) + ps[|ps| - 1].quantite
  }

  datatype AdminStats = AdminStats(totalProduits: nat, stockTotal: int, valeurStock: int,
                                   totalCommandes: nat, enAttente: nat, validees: nat, caTotal: int,
                                   totalUsers: nat)

  function AdminStatistiques(ps: seq<Product>, cs: seq<Order>, us: seq<Auth.User>): (a: AdminStats)
    ensures a.enAttente + a.validees <= a.totalCommandes == |cs|
  {
    CountStatutPartition(cs);
    AdminStats(|ps|, StockTotal(ps), Stats.ValeurStock(ps),
               |cs|, CountStatut(cs, EnAttente), CountStatut(cs, Validee), Stats.RevenueValidees(cs),
               |us|)
  }

  lemma {:induction false} CountStatutPartition(cs: seq<Order>)
    ensures CountStatut(cs, EnAttente) + CountStatut(cs, Validee) + CountStatut(cs, Annulee) == |cs|
  {
    if cs != [] {
      CountStatutPartition(cs[..|cs| - 1]);
    }
  }

  lemma {:induction false} CountValideesAgree(cs: seq<Order>)
    ensures CountStatut(cs, Validee) == Stats.CountValidees(cs)
  {
    if cs != [] {
      CountValideesAgree(cs[..|cs| - 1]);
    }
  }

  /** Pending and validated orders never outnumber all orders (the rest are
      cancelled), and the admin figures for validated orders, revenue and
      stock value agree with the summary of `calculer_statistiques`. */
  lemma AdminStatsSpec(ps: seq<Product>, cs: seq<Order>, us: seq<Auth.User>)
    ensures var a := AdminStatistiques(ps, cs, us);
      var s := Stats.CalculerStatistiques(cs, ps);
      && a.enAttente + a.validees <= a.totalCommandes
      && a.totalCommandes - a.enAttente - a.validees == CountStatut(cs, Annulee)
      && a.validees == s.totalCommandes
      && a.caTotal == s.chiffreAffaires
      && a.valeurStock == s.valeurStock
      && a.totalProduits == s.nombreProduits
  {
    CountStatutPartition(cs);
    CountValideesAgree(cs);
    Stats.SummaryCountsOnlyValidated(cs, ps);
  }

  // ---------------------------------------------------------------------
  // User projection (`get_all_users`)

  /** What the admin user list shows of a user: no password hash, no salt. */
  datatype SafeUser = SafeUser(id: int, username: string, role: string, createdAt: string)

  /** `user.get("role", "user")` on a record that has no role. */
  function Safe(u: Auth.User): SafeUser
  {
    SafeUser(u.id, u.username, "user", u.createdAt)
  }

  /** The loop building `users_safe`: one entry per user, in order. */
  method UsersSafe(us: seq<Auth.User>) returns (r: seq<SafeUser>)
    ensures |r| == |us|
    ensures forall i :: 0 <= i < |us| ==> r[i] == Safe(us[i])
    ensures forall i :: 0 <= i < |r| ==> r[i].role == "user"
  {
    r := [];
    var i := 0;
    while i < |us|
      invariant 0 <= i <= |us|
      invariant |r| == i
      invariant forall k :: 0 <= k < i ==> r[k] == Safe(us[k])
    {
      r := r + [Safe(us[i])];
      i := i + 1;
    }
  }
}
