/** The product catalogue of modules/produits.py: identifier allocation,
    lookup by identifier, and the add / partial-update / remove operations
    that change the caller's list in place and then write it to the products
    table. The write is modelled by the ghost field `fichier`, the snapshot
    last saved. Prices are integer cents. */
module Produits {
  import opened Common
  import Ids

  datatype Product = Product(id: int, nom: string, description: string, prix: int, quantite: int)

  function IdsOf(ps: seq<Product>): seq<int>
  {
    Ids.Project(ps, (p: Product) => p.id)
  }

  predicate UniqueIds(ps: seq<Product>)
  {
    forall i, j :: 0 <= i < j < |ps| ==> ps[i].id != ps[j].id
  }

  /** `generer_id`: 1 for an empty catalogue, otherwise the largest id plus one. */
  function GenererId(ps: seq<Product>): (r: int)
    ensures ps == [] ==> r == 1
    ensures forall i :: 0 <= i < |ps| ==> ps[i].id < r
    ensures ps != [] ==> exists i :: 0 <= i < |ps| && r == ps[i].id + 1
  {
    var ids := IdsOf(ps);
    assert forall i :: 0 <= i < |ids| ==> ids[i] == ps[i].id;
    Ids.NextId(ids)
  }

  /** Index of the first record with identifier `id`. */
  function FindIndex(ps: seq<Product>, id: int): (r: Option<nat>)
    ensures r.Some? ==> r.value < |ps| && ps[r.value].id == id
    ensures r.Some? ==> forall j :: 0 <= j < r.value ==> ps[j].id != id
    ensures r.None? <==> forall j :: 0 <= j < |ps| ==> ps[j].id != id
  {
    Ids.FirstIndex(IdsOf(ps), id)
  }

  /** `trouver_produit`: the first record whose id is `id`, or None. */
  function TrouverProduit(ps: seq<Product>, id: int): (r: Option<Product>)
    ensures r.None? <==> forall j :: 0 <= j < |ps| ==> ps[j].id != id
    ensures r.Some? ==> exists i :: 0 <= i < |ps| && ps[i] == r.value && r.value.id == id
                          && forall j :: 0 <= j < i ==> ps[j].id != id
  {
    match FindIndex(ps, id)
    case None => None
    case Some(i) => Some(ps[i])
  }

  // ---------------------------------------------------------------------
  // Partial update (`modifier_produit(produits, id, **modifications)`)

  /** One keyword argument of `modifier_produit`. `Id` is the key "id", which
      the source never writes; `Autre` is any key the record does not have. */
  datatype Modification =
    | Nom(nom: string)
    | Description(description: string)
    | Prix(prix: int)
    | Quantite(quantite: int)
    | Id(id: int)
    | Autre(cle: string)

  /** The record's writable fields, and a uniform view of their values. */
  datatype Field = FNom | FDescription | FPrix | FQuantite
  datatype Value = Texte(s: string) | Nombre(n: int)

  function ValueOf(p: Product, f: Field): Value
  {
    match f
    case FNom => Texte(p.nom)
    case FDescription => Texte(p.description)
    case FPrix => Nombre(p.prix)
    case FQuantite => Nombre(p.quantite)
  }

  /** The field a keyword argument writes: None for "id" and unknown keys. */
  function Target(m: Modification): Option<Field>
  {
    match m
    case Nom(_) => Some(FNom)
    case Description(_) => Some(FDescription)
    case Prix(_) => Some(FPrix)
    case Quantite(_) => Some(FQuantite)
    case Id(_) => None
    case Autre(_) => None
  }

  function Payload(m: Modification): Value
  {
    match m
    case Nom(s) => Texte(s)
    case Description(s) => Texte(s)
    case Prix(n) => Nombre(n)
    case Quantite(n) => Nombre(n)
    case Id(n) => Nombre(n)
    case Autre(k) => Texte(k)
  }

  /** One pass of the loop body: `if cle in produit and cle != "id": produit[cle] = valeur`. */
  function ApplyOne(p: Product, m: Modification): Product
  {
    match m
    case Nom(s) => p.(nom := s)
    case Description(s) => p.(description := s)
    case Prix(n) => p.(prix := n)
    case Quantite(n) => p.(quantite := n)
    case Id(_) => p
    case Autre(_) => p
  }

  /** The keyword arguments applied in order. */
  function Apply(p: Product, mods: seq<Modification>): Product
  {
    if mods == [] then p else ApplyOne(Apply(p, mods[..|mods| - 1]), mods[|mods| - 1])
  }

  /** The value given last for field `f`, if any argument names it. */
  function LastAssigned(mods: seq<Modification>, f: Field): Option<Value>
  {
    if mods == [] then None
    else if Target(mods[|mods| - 1]) == Some(f) then Some(Payload(mods[|mods| - 1]))
    else LastAssigned(mods[..|mods| - 1], f)
  }

  /** After the update the id is unchanged, and every field holds the value
      given last for it, or its old value when no argument names it: the
      key "id" and unknown keys have no effect. */
  lemma {:induction false} ApplyFields(p: Product, mods: seq<Modification>)
    ensures Apply(p, mods).id == p.id
    ensures forall f :: ValueOf(Apply(p, mods), f) ==
              match LastAssigned(mods, f) case Some(v) => v case None => ValueOf(p, f)
  {
    if mods != [] {
      ApplyFields(p, mods[..|mods| - 1]);
    }
  }

  // ---------------------------------------------------------------------
  // The caller's list, changed in place and saved

  class Catalogue {
    /** The list the caller passes in, as the source's functions see it. */
    var produits: seq<Product>
    /** The rows last written to the products table. */
    ghost var fichier: seq<Product>

    constructor (loaded: seq<Product>)
      ensures produits == loaded && fichier == loaded
    {
      produits := loaded;
      fichier := loaded;
    }

    /** `ajouter_produit`: append one record with a fresh id, then save. */
    method AjouterProduit(nom: string, description: string, prix: int, quantite: int)
      returns (nouveau: Product)
      modifies this
      ensures nouveau == Product(GenererId(old(produits)), nom, description, prix, quantite)
      ensures produits == old(produits) + [nouveau]
      ensures fichier == produits
    {
      nouveau := Product(GenererId(produits), nom, description, prix, quantite);
      produits := produits + [nouveau];
      fichier := produits;
    }

    /** `modifier_produit`: on the first record with this id, apply the
        keyword arguments in order, then save; an absent id saves nothing. */
    method ModifierProduit(id: int, mods: seq<Modification>) returns (r: Option<Product>)
      modifies this
      ensures match FindIndex(old(produits), id)
        case None => r == None && produits == old(produits) && fichier == old(fichier)
        case Some(i) =>
          && produits == old(produits)[i := Apply(old(produits)[i], mods)]
          && r == Some(produits[i])
          && fichier == produits
    {
      var found := FindIndex(produits, id);
      if found.None? {
        return None;
      }
      var i := found.value;
      var rec := produits[i];
      var k := 0;
      while k < |mods|
        invariant 0 <= k <= |mods|
        invariant rec == Apply(produits[i], mods[..k])
      {
        assert mods[..k + 1][..k] == mods[..k];
        rec := ApplyOne(rec, mods[k]);
        k := k + 1;
      }
      assert mods[..k] == mods;
      produits := produits[i := rec];
      fichier := produits;
      r := Some(rec);
    }

    /** `supprimer_produit`: `list.remove` of the record found by id, then save. */
    method SupprimerProduit(id: int) returns (ok: bool)
      modifies this
      ensures ok <==> FindIndex(old(produits), id).Some?
      ensures ok ==> var i := FindIndex(old(produits), id).value;
                     produits == old(produits)[..i] + old(produits)[i + 1..] && fichier == produits
      ensures !ok ==> produits == old(produits) && fichier == old(fichier)
    {
      var found := FindIndex(produits, id);
      if found.None? {
        return false;
      }
      // `list.remove(x)` drops the first element equal to x.
      var x := produits[found.value];
      var j := 0;
      while produits[j] != x
        invariant 0 <= j <= found.value
        invariant forall k :: 0 <= k < j ==> produits[k] != x
        decreases found.value - j
      {
        j := j + 1;
      }
      assert j == found.value;
      produits := produits[..j] + produits[j + 1..];
      fichier := produits;
      ok := true;
    }
  }

  /** The record `ajouter_produit` appends, for the list `ps`. */
  function Added(ps: seq<Product>, nom: string, description: string, prix: int, quantite: int): Product
  {
    Product(GenererId(ps), nom, description, prix, quantite)
  }

  /** Adding a product keeps the ids of the list pairwise distinct. */
  lemma AddKeepsUniqueIds(ps: seq<Product>, nom: string, description: string, prix: int, quantite: int)
    requires UniqueIds(ps)
    ensures UniqueIds(ps + [Added(ps, nom, description, prix, quantite)])
  {
  }

  /** Updating a record keeps all ids as they were. */
  lemma UpdateKeepsIds(ps: seq<Product>, i: nat, mods: seq<Modification>)
    requires i < |ps|
    ensures IdsOf(ps[i := Apply(ps[i], mods)]) == IdsOf(ps)
  {
    ApplyFields(ps[i], mods);
  }

  /** Removing a record keeps the other ids distinct, and the removed id is gone. */
  lemma RemoveKeepsUniqueIds(ps: seq<Product>, i: nat)
    requires i < |ps| && UniqueIds(ps)
    ensures UniqueIds(ps[..i] + ps[i + 1..])
    ensures FindIndex(ps[..i] + ps[i + 1..], ps[i].id).None?
  {
    var r := ps[..i] + ps[i + 1..];
    forall j | 0 <= j < |r| ensures r[j] == if j < i then ps[j] else ps[j + 1] {}
  }
}
