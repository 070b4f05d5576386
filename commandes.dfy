/** The order engine of modules/commandes.py. Each order covers one product.
    An order is created `en_attente` with the product's price copied into it
    and the ordered quantity taken from stock; it is then validated or
    cancelled, and cancelling gives the quantity back to the product if the
    product still exists.

    Each operation of the source loads the products and orders tables,
    changes the loaded lists and writes them back. `Boutique` holds the two
    tables; its methods follow the source statement by statement, and each
    is tied to one pure function (`Creer`, `Annuler`, `Valider`) on a
    `Tables` value, about which the lemmas below are proved. */
module Commandes {
  import opened Common
  import Ids
  import opened Produits

  datatype Statut = EnAttente | Validee | Annulee

  /** A row of the orders table; `prixUnitaire` and `total` in cents. */
  datatype Order = Order(id: int, produitId: int, quantite: int, prixUnitaire: int,
                         total: int, date: string, statut: Statut)

  /** The two tables an operation loads and saves. */
  datatype Tables = Tables(produits: seq<Product>, commandes: seq<Order>)

  /** The tables after an operation, and what it returned. */
  datatype Step<+R> = Step(tables: Tables, result: R)

  datatype CreateError = ProduitIntrouvable | StockInsuffisant(disponible: int)
  datatype CancelError = CommandeIntrouvable | DejaAnnulee
  datatype ValidateError = CommandeInconnue | NonValidable

  function OrderIds(cs: seq<Order>): seq<int>
  {
    Ids.Project(cs, (c: Order) => c.id)
  }

  predicate UniqueOrderIds(cs: seq<Order>)
  {
    forall i, j :: 0 <= i < j < |cs| ==> cs[i].id != cs[j].id
  }

  /** `generer_id_commande`: 1 when there are no orders, otherwise the largest id plus one. */
  function GenererIdCommande(cs: seq<Order>): (r: int)
    ensures cs == [] ==> r == 1
    ensures forall i :: 0 <= i < |cs| ==> cs[i].id < r
    ensures cs != [] ==> exists i :: 0 <= i < |cs| && r == cs[i].id + 1
  {
    var ids := OrderIds(cs);
    assert forall i :: 0 <= i < |ids| ==> ids[i] == cs[i].id;
    Ids.NextId(ids)
  }

  /** Index of the first order with identifier `id`. */
  function FindOrder(cs: seq<Order>, id: int): (r: Option<nat>)
    ensures r.Some? ==> r.value < |cs| && cs[r.value].id == id
    ensures r.Some? ==> forall j :: 0 <= j < r.value ==> cs[j].id != id
    ensures r.None? <==> forall j :: 0 <= j < |cs| ==> cs[j].id != id
  {
    Ids.FirstIndex(OrderIds(cs), id)
  }

  /** `p` with `delta` added to its stock. */
  function Restock(p: Product, delta: int): Product
  {
    p.(quantite := p.quantite + delta)
  }

  // ---------------------------------------------------------------------
  // The operations as functions of the loaded tables

  /** `creer_commande(produit_id, quantite, username)`; `now` is the
      timestamp `datetime.now().isoformat()` gives. The username is not
      stored by the source and does not appear here. */
  function Creer(t: Tables, produitId: int, quantite: int, now: string): (r: Step<Result<Order, CreateError>>)
    ensures r.result.Err? ==> r.tables == t
    ensures r.result.Ok? ==> r.tables.commandes == t.commandes + [r.result.value]
    ensures |r.tables.produits| == |t.produits|
  {
    match FindIndex(t.produits, produitId)
    case None => Step(t, Err(ProduitIntrouvable))
    case Some(i) =>
      var p := t.produits[i];
      if p.quantite < quantite then Step(t, Err(StockInsuffisant(p.quantite)))
      else
        var o := Order(GenererIdCommande(t.commandes), produitId, quantite, p.prix,
                       p.prix * quantite, now, EnAttente);
        Step(Tables(t.produits[i := Restock(p, -quantite)], t.commandes + [o]), Ok(o))
  }

  /** `annuler_commande(id_commande)`. */
  function Annuler(t: Tables, id: int): (r: Step<Outcome<CancelError>>)
    ensures r.result.Fail? ==> r.tables == t
    ensures |r.tables.produits| == |t.produits| && |r.tables.commandes| == |t.commandes|
  {
    match FindOrder(t.commandes, id)
    case None => Step(t, Fail(CommandeIntrouvable))
    case Some(k) =>
      var c := t.commandes[k];
      if c.statut == Annulee then Step(t, Fail(DejaAnnulee))
      else
        var ps := match FindIndex(t.produits, c.produitId)
          case None => t.produits
          case Some(i) => t.produits[i := Restock(t.produits[i], c.quantite)];
        Step(Tables(ps, t.commandes[k := c.(statut := Annulee)]), Pass)
  }

  /** `valider_commande(id_commande)`. */
  function Valider(t: Tables, id: int): (r: Step<Outcome<ValidateError>>)
    ensures r.result.Fail? ==> r.tables == t
    ensures r.tables.produits == t.produits && |r.tables.commandes| == |t.commandes|
  {
    match FindOrder(t.commandes, id)
    case None => Step(t, Fail(CommandeInconnue))
    case Some(k) =>
      var c := t.commandes[k];
      if c.statut != EnAttente then Step(t, Fail(NonValidable))
      else Step(Tables(t.produits, t.commandes[k := c.(statut := Validee)]), Pass)
  }

  // ---------------------------------------------------------------------
  // The tables on disk, and the operations as the source writes them

  class Boutique {
    /** The rows of the products table. */
    var produits: seq<Product>
    /** The rows of the orders table. */
    var commandes: seq<Order>

    constructor (ps: seq<Product>, cs: seq<Order>)
      ensures produits == ps && commandes == cs
    {
      produits := ps;
      commandes := cs;
    }

    function Snapshot(): Tables
      reads this
    {
      Tables(produits, commandes)
    }

    method CreerCommande(produitId: int, quantite: int, username: string, now: string)
      returns (r: Result<Order, CreateError>)
      modifies this
      ensures Step(Snapshot(), r) == Creer(old(Snapshot()), produitId, quantite, now)
    {
      var ps := produits;
      var found := FindIndex(ps, produitId);
      if found.None? {
        return Err(ProduitIntrouvable);
      }
      var i := found.value;
      var produit := ps[i];
      if produit.quantite < quantite {
        return Err(StockInsuffisant(produit.quantite));
      }
      var total := produit.prix * quantite;
      var cs := commandes;
      var nouvelle := Order(GenererIdCommande(cs), produitId, quantite, produit.prix, total, now, EnAttente);
      ps := ps[i := produit.(quantite := produit.quantite - quantite)];
      produits := ps;
      cs := cs + [nouvelle];
      commandes := cs;
      r := Ok(nouvelle);
    }

    method AnnulerCommande(id: int) returns (r: Outcome<CancelError>)
      modifies this
      ensures Step(Snapshot(), r) == Annuler(old(Snapshot()), id)
    {
      var cs := commandes;
      var k := 0;
      while k < |cs| && cs[k].id != id
        invariant 0 <= k <= |cs|
        invariant forall j :: 0 <= j < k ==> cs[j].id != id
      {
        k := k + 1;
      }
      if k == |cs| {
        assert FindOrder(cs, id).None?;
        return Fail(CommandeIntrouvable);
      }
      assert FindOrder(cs, id) == Some(k);
      var commande := cs[k];
      if commande.statut == Annulee {
        return Fail(DejaAnnulee);
      }
      ghost var t := old(Snapshot());
      var ps := produits;
      var found := FindIndex(ps, commande.produitId);
      if found.Some? {
        var i := found.value;
        ps := ps[i := ps[i].(quantite := ps[i].quantite + commande.quantite)];
        produits := ps;
      }
      cs := cs[k := commande.(statut := Annulee)];
      assert Annuler(t, id) == Step(Tables(ps, cs), Pass);
      commandes := cs;
      r := Pass;
    }

    method ValiderCommande(id: int) returns (r: Outcome<ValidateError>)
      modifies this
      ensures Step(Snapshot(), r) == Valider(old(Snapshot()), id)
    {
      var cs := commandes;
      var k := 0;
      while k < |cs|
        invariant 0 <= k <= |cs|
        invariant forall j :: 0 <= j < k ==> cs[j].id != id
        invariant cs == commandes == old(commandes) && produits == old(produits)
      {
        if cs[k].id == id {
          assert FindOrder(cs, id) == Some(k);
          if cs[k].statut != EnAttente {
            return Fail(NonValidable);
          }
          cs := cs[k := cs[k].(statut := Validee)];
          commandes := cs;
          return Pass;
        }
        k := k + 1;
      }
      return Fail(CommandeInconnue);
    }
  }

  // ---------------------------------------------------------------------
  // Properties of order creation

  /** Creation fails exactly when the product is unknown or its stock is
      below the requested quantity, and a failed creation changes neither
      table. */
  lemma CreerFailure(t: Tables, produitId: int, quantite: int, now: string)
    ensures var s := Creer(t, produitId, quantite, now);
      && (s.result == Err(ProduitIntrouvable) <==> TrouverProduit(t.produits, produitId).None?)
      && (s.result.Err? && s.result.error.StockInsuffisant? <==>
            TrouverProduit(t.produits, produitId).Some?
            && TrouverProduit(t.produits, produitId).value.quantite < quantite)
      && (s.result.Err? ==> s.tables == t)
  {
  }

  /** A successful creation takes exactly `quantite` from the ordered
      product (leaving it non-negative), changes no other product, and
      appends one `en_attente` order with a fresh id, the product's current
      price and total = price * quantity. */
  lemma CreerSuccess(t: Tables, produitId: int, quantite: int, now: string, i: nat)
    requires FindIndex(t.produits, produitId) == Some(i)
    requires quantite <= t.produits[i].quantite
    ensures var s := Creer(t, produitId, quantite, now);
      && s.result.Ok?
      && |s.tables.produits| == |t.produits|
      && s.tables.produits[i].quantite == t.produits[i].quantite - quantite >= 0
      && s.tables.produits[i] == t.produits[i].(quantite := s.tables.produits[i].quantite)
      && (forall j :: 0 <= j < |t.produits| && j != i ==> s.tables.produits[j] == t.produits[j])
      && s.tables.commandes == t.commandes + [s.result.value]
      && s.result.value.statut == EnAttente
      && s.result.value.produitId == produitId
      && s.result.value.quantite == quantite
      && s.result.value.prixUnitaire == t.produits[i].prix
      && s.result.value.total == t.produits[i].prix * quantite
      && (forall j :: 0 <= j < |t.commandes| ==> t.commandes[j].id < s.result.value.id)
  {
  }

  predicate StocksNonNegative(ps: seq<Product>)
  {
    forall j :: 0 <= j < |ps| ==> ps[j].quantite >= 0
  }

  /** Creating an order never drives a stock negative. */
  lemma CreerKeepsStocksNonNegative(t: Tables, produitId: int, quantite: int, now: string)
    requires StocksNonNegative(t.produits)
    ensures StocksNonNegative(Creer(t, produitId, quantite, now).tables.produits)
  {
  }

  /** Creating an order keeps order ids pairwise distinct. */
  lemma CreerKeepsUniqueOrderIds(t: Tables, produitId: int, quantite: int, now: string)
    requires UniqueOrderIds(t.commandes)
    ensures UniqueOrderIds(Creer(t, produitId, quantite, now).tables.commandes)
  {
  }

  // ---------------------------------------------------------------------
  // Properties of cancellation and validation

  /** Cancelling fails exactly for an unknown id or an order already
      cancelled, and then changes nothing. Otherwise (a validated order
      included) it marks the order `annulee`, changes no other order, and
      gives the order's quantity back to its product when that product
      still exists; when it does not, the products are left as they are. */
  lemma AnnulerSpec(t: Tables, id: int)
    ensures var s := Annuler(t, id);
      && (s.result == Fail(CommandeIntrouvable) <==> FindOrder(t.commandes, id).None?)
      && (s.result == Fail(DejaAnnulee) <==>
            FindOrder(t.commandes, id).Some? && t.commandes[FindOrder(t.commandes, id).value].statut == Annulee)
      && (s.result.Fail? ==> s.tables == t)
      && (s.result.Pass? ==>
            var k := FindOrder(t.commandes, id).value;
            var c := t.commandes[k];
            && s.tables.commandes == t.commandes[k := c.(statut := Annulee)]
            && (TrouverProduit(t.produits, c.produitId).None? ==> s.tables.produits == t.produits)
            && (TrouverProduit(t.produits, c.produitId).Some? ==>
                  var i := FindIndex(t.produits, c.produitId).value;
                  s.tables.produits == t.produits[i := Restock(t.produits[i], c.quantite)]))
  {
  }

  /** Validation succeeds exactly for a known order that is `en_attente`;
      it then marks that order `validee` and touches nothing else, and on
      failure nothing is changed. */
  lemma ValiderSpec(t: Tables, id: int)
    ensures var s := Valider(t, id);
      && (s.result.Pass? <==>
            FindOrder(t.commandes, id).Some? && t.commandes[FindOrder(t.commandes, id).value].statut == EnAttente)
      && (s.result.Fail? ==> s.tables == t)
      && (s.result.Pass? ==>
            var k := FindOrder(t.commandes, id).value;
            s.tables == Tables(t.produits, t.commandes[k := t.commandes[k].(statut := Validee)]))
  {
  }

  /** A validated order cannot be validated a second time. */
  lemma {:induction false} ValiderTwice(t: Tables, id: int)
    requires Valider(t, id).result.Pass?
    ensures var t2 := Valider(t, id).tables;
      Valider(t2, id) == Step(t2, Fail(NonValidable))
  {
    var k := FindOrder(t.commandes, id).value;
    var t2 := Valider(t, id).tables;
    FindOrderSameIds(t.commandes, t2.commandes, id);
    assert t2.commandes[k].statut == Validee;
  }

  /** A cancelled order cannot be cancelled a second time. */
  lemma {:induction false} AnnulerTwice(t: Tables, id: int)
    requires Annuler(t, id).result.Pass?
    ensures var t2 := Annuler(t, id).tables;
      Annuler(t2, id) == Step(t2, Fail(DejaAnnulee))
  {
    var k := FindOrder(t.commandes, id).value;
    var t2 := Annuler(t, id).tables;
    FindOrderSameIds(t.commandes, t2.commandes, id);
    assert t2.commandes[k].statut == Annulee;
  }

  /** Two order lists with the same ids at the same positions find the same index. */
  lemma FindOrderSameIds(a: seq<Order>, b: seq<Order>, id: int)
    requires |a| == |b| && forall j :: 0 <= j < |a| ==> a[j].id == b[j].id
    ensures FindOrder(a, id) == FindOrder(b, id)
  {
    assert OrderIds(a) == OrderIds(b);
  }

  /** Two product lists with the same ids at the same positions find the same index. */
  lemma FindIndexSameIds(a: seq<Product>, b: seq<Product>, id: int)
    requires |a| == |b| && forall j :: 0 <= j < |a| ==> a[j].id == b[j].id
    ensures FindIndex(a, id) == FindIndex(b, id)
  {
    assert IdsOf(a) == IdsOf(b);
  }

  /** The status changes an operation may make: `en_attente` to `validee`,
      anything but `annulee` to `annulee`, or none. */
  predicate Legal(before: Statut, after: Statut)
  {
    before == after || (before == EnAttente && after == Validee) || (before != Annulee && after == Annulee)
  }

  predicate LegalChanges(before: seq<Order>, after: seq<Order>)
  {
    |before| <= |after| && forall j :: 0 <= j < |before| ==> Legal(before[j].statut, after[j].statut)
  }

  /** Every operation makes only legal status changes; in particular
      `annulee` is final. */
  lemma StatusMachine(t: Tables, produitId: int, quantite: int, now: string, id: int)
    ensures LegalChanges(t.commandes, Creer(t, produitId, quantite, now).tables.commandes)
    ensures LegalChanges(t.commandes, Annuler(t, id).tables.commandes)
    ensures LegalChanges(t.commandes, Valider(t, id).tables.commandes)
  {
    var cs := t.commandes;
    var c := Creer(t, produitId, quantite, now).tables.commandes;
    assert forall j :: 0 <= j < |cs| ==> c[j] == cs[j];
    if FindOrder(cs, id).Some? {
      var k := FindOrder(cs, id).value;
      SetStatutLegal(cs, k, Annulee);
      SetStatutLegal(cs, k, Validee);
    }
  }

  /** Changing the status of order `k` to `st` is legal or leaves the list as it is. */
  lemma SetStatutLegal(cs: seq<Order>, k: nat, st: Statut)
    requires k < |cs|
    ensures Legal(cs[k].statut, st) ==> LegalChanges(cs, cs[k := cs[k].(statut := st)])
  {
  }

  // ---------------------------------------------------------------------
  // Round trip

  /** Creating an order and then cancelling it puts the products table back
      exactly as it was, and leaves the new order in place, cancelled. */
  lemma {:induction false} CreerAnnulerRoundTrip(t: Tables, produitId: int, quantite: int, now: string)
    requires Creer(t, produitId, quantite, now).result.Ok?
    ensures var s := Creer(t, produitId, quantite, now);
      var o := s.result.value;
      Annuler(s.tables, o.id) ==
        Step(Tables(t.produits, t.commandes + [o.(statut := Annulee)]), Pass)
  {
    var s := Creer(t, produitId, quantite, now);
    var o := s.result.value;
    var i := FindIndex(t.produits, produitId).value;
    var ps := t.produits[i := Restock(t.produits[i], -quantite)];
    var cs := t.commandes + [o];
    CreerTakes(t, produitId, quantite, now, i);
    FindOrderAppended(t.commandes, o);
    FindIndexSameIds(t.produits, ps, produitId);
    AnnulerRestocks(Tables(ps, cs), o.id, |t.commandes|, i);
    RestockBack(t.produits, i, quantite);
    assert cs[|t.commandes| := o.(statut := Annulee)] == t.commandes + [o.(statut := Annulee)];
  }

  /** A creation that succeeds on product `i`. */
  lemma CreerTakes(t: Tables, produitId: int, quantite: int, now: string, i: nat)
    requires FindIndex(t.produits, produitId) == Some(i)
    requires Creer(t, produitId, quantite, now).result.Ok?
    ensures var s := Creer(t, produitId, quantite, now);
      && s.tables == Tables(t.produits[i := Restock(t.produits[i], -quantite)], t.commandes + [s.result.value])
      && s.result.value.statut == EnAttente && s.result.value.produitId == produitId
      && s.result.value.quantite == quantite
      && forall j :: 0 <= j < |t.commandes| ==> t.commandes[j].id < s.result.value.id
  {
  }

  /** An order whose id is above every id of `cs`, once appended, is found last. */
  lemma FindOrderAppended(cs: seq<Order>, o: Order)
    requires forall j :: 0 <= j < |cs| ==> cs[j].id < o.id
    ensures FindOrder(cs + [o], o.id) == Some(|cs|)
  {
    var l := cs + [o];
    assert forall j :: 0 <= j < |cs| ==> l[j].id != o.id;
    assert l[|cs|] == o;
  }

  /** Adding back to product `i` the quantity taken from it restores the list. */
  lemma RestockBack(ps: seq<Product>, i: nat, q: int)
    requires i < |ps|
    ensures var taken := ps[i := Restock(ps[i], -q)];
      taken[i := Restock(taken[i], q)] == ps
  {
    var p := ps[i];
    assert Restock(Restock(p, -q), q) == p;
    var taken := ps[i := Restock(p, -q)];
    assert taken[i := Restock(taken[i], q)] == ps[i := p];
  }

  /** Cancelling order `k`, not yet cancelled, whose product is at index `i`. */
  lemma AnnulerRestocks(t: Tables, id: int, k: nat, i: nat)
    requires FindOrder(t.commandes, id) == Some(k)
    requires t.commandes[k].statut != Annulee
    requires FindIndex(t.produits, t.commandes[k].produitId) == Some(i)
    ensures Annuler(t, id) == Step(Tables(t.produits[i := Restock(t.produits[i], t.commandes[k].quantite)],
                                          t.commandes[k := t.commandes[k].(statut := Annulee)]), Pass)
  {
  }

  /** The same for the stock of the ordered product when other operations
      ran in between without touching that product's record: cancelling
      gives back exactly what creation took. */
  lemma {:induction false} AnnulerRestoresStock(t: Tables, id: int, i: nat)
    requires FindOrder(t.commandes, id).Some?
    requires var c := t.commandes[FindOrder(t.commandes, id).value];
      c.statut != Annulee && FindIndex(t.produits, c.produitId) == Some(i)
    ensures var c := t.commandes[FindOrder(t.commandes, id).value];
      Annuler(t, id).tables.produits[i].quantite == t.produits[i].quantite + c.quantite
  {
  }
}
