/** The catalogue edits that may happen between ledger calls: a product's name, price and category. */
module Catalog {
  import opened Machine
  import opened Outcomes
  import opened Schema
  import opened Database

  datatype Error = NameRequired | NegativePrice | ProductNotFound | CategoryNotFound | Rejected

  datatype Edit = Edit(name: string, price: Int64, category: Option<int>)

  predicate CategoryOfOrg(t: Tables, org: int, category: int) {
    category in t.categories && t.categories[category].org == org
  }

  function Verdict(t: Tables, org: int, product: int, edit: Edit): Option<Error> {
    if edit.name == "" then Some(NameRequired)
    else if edit.price < 0 then Some(NegativePrice)
    else if !OwnsProduct(t, org, product) then Some(ProductNotFound)
    else if edit.category.Some? && edit.category.value > 0 && !CategoryOfOrg(t, org, edit.category.value)
    then Some(CategoryNotFound)
    else if !ProductColumnsAccept(t, edit.name, edit.price, edit.category) then Some(Rejected)
    else None
  }

  function Apply(t: Tables, org: int, product: int, edit: Edit): Tables {
    if Verdict(t, org, product, edit) == None
    then t.(products := t.products[product := Product(org, edit.name, edit.price, edit.category)])
    else t
  }

  predicate CategoryFits(t: Tables, org: int, category: Option<int>) {
    category.Some? ==> category.value in t.categories && (category.value > 0 ==> CategoryOfOrg(t, org, category.value))
  }

  /**
    An edit is accepted exactly for an owned product, a name of 1..255 characters, a price that fits its column and
    a category of the organisation; it rewrites that product, which stays with its organisation, and nothing else.
   */
  lemma EditedIff(t: Tables, org: int, product: int, edit: Edit)
    ensures Verdict(t, org, product, edit) == None <==>
      && OwnsProduct(t, org, product)
      && 1 <= |edit.name| <= MAX_NAME && 0 <= edit.price <= MAX_INT32 && CategoryFits(t, org, edit.category)
    ensures var t' := Apply(t, org, product, edit);
      && t' == t.(products := t'.products) && t'.products.Keys == t.products.Keys
      && (forall p <- t.products :: t'.products[p].org == t.products[p].org)
      && (forall p <- t.products :: p != product ==> t'.products[p] == t.products[p])
      && (t' == t || Verdict(t, org, product, edit) == None)
  {
  }

  method UpdateForOrg(db: Db, org: int, product: int, edit: Edit) returns (fault: Option<Error>)
    requires db.Valid() && !db.open
    modifies db
    ensures db.Valid() && !db.open
    ensures fault == Verdict(old(db.committed), org, product, edit)
    ensures db.committed == Apply(old(db.committed), org, product, edit)
  {
    if edit.name == "" {
      return Some(NameRequired);
    }
    if edit.price < 0 {
      return Some(NegativePrice);
    }
    if !OwnsProduct(db.committed, org, product) {
      return Some(ProductNotFound);
    }
    if edit.category.Some? && edit.category.value > 0 && !CategoryOfOrg(db.committed, org, edit.category.value) {
      return Some(CategoryNotFound);
    }
    var ok := db.UpdateProductForOrg(org, product, edit.name, edit.price, edit.category);
    return if ok then None else Some(Rejected);
  }
}
