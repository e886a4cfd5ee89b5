/**
 * The in-memory product store: a hash map from id to product and a 64-bit id
 * generator that starts at 1.
 */
module Repository {
  import opened Wrappers
  import opened JavaInt
  import opened Sets
  import opened ProductModel

  /** `ks` names every key of `m` once, and `r` holds the values stored under them, in that order. */
  ghost predicate ListsInOrder(m: map<int, Product>, r: seq<Product>, ks: seq<int>) {
    && |ks| == |r|
    && Distinct(ks)
    && (forall i :: 0 <= i < |ks| ==> ks[i] in m && r[i] == m[ks[i]])
    && (forall k :: k in m ==> k in ks)
  }

  /** `r` lists the values of `m`, one per key, in some order the hash map chooses. */
  ghost predicate IsListing(m: map<int, Product>, r: seq<Product>) {
    exists ks :: ListsInOrder(m, r, ks)
  }

  /** A listing has exactly one element per stored key. */
  lemma ListingSize(m: map<int, Product>, r: seq<Product>)
    requires IsListing(m, r)
    ensures |r| == |m|
  {
    var ks :| ListsInOrder(m, r, ks);
    assert forall x :: x in m.Keys ==> x in ks;
    EnumerationSize(ks, m.Keys);
  }

  /** Every listed product is stored under some key, and every stored product is listed. */
  lemma ListingMembers(m: map<int, Product>, r: seq<Product>)
    requires IsListing(m, r)
    ensures forall i :: 0 <= i < |r| ==> r[i] in m.Values
    ensures forall k :: k in m ==> m[k] in r
  {
    var ks :| ListsInOrder(m, r, ks);
    forall k | k in m ensures m[k] in r {
      var i :| 0 <= i < |ks| && ks[i] == k;
      assert r[i] == m[k];
    }
  }

  /** The only listing of an empty store is the empty list. */
  lemma EmptyListing(r: seq<Product>)
    requires IsListing(map[], r)
    ensures r == []
  {
    ListingSize(map[], r);
  }

  class InMemoryProductRepository {
    var storage: map<int, Product>
    var idGenerator: int

    /** Every product is stored under its own id; the generator is a positive `long`. */
    ghost predicate Valid()
      reads this
    {
      && 1 <= idGenerator <= Int64Max
      && forall k :: k in storage ==> storage[k].id == Some(k)
    }

    constructor ()
      ensures Valid()
      ensures storage == map[] && idGenerator == 1
    {
      storage := map[];
      idGenerator := 1;
    }

    /**
     * `save`: a product without an id takes the generator's value (which then
     * advances); a product with an id keeps it. Either way it is stored under
     * its id, replacing what was there.
     */
    method Save(product: Product) returns (saved: Product)
      requires Valid()
      requires product.id.None? ==> idGenerator < Int64Max
      modifies this
      ensures Valid()
      ensures product.id.None? ==> saved == product.(id := Some(old(idGenerator))) && idGenerator == old(idGenerator) + 1
      ensures product.id.Some? ==> saved == product && idGenerator == old(idGenerator)
      ensures saved.id.Some? && storage == old(storage)[saved.id.value := saved]
    {
      saved := product;
      if saved.id.None? {
        saved := saved.(id := Some(idGenerator));
        idGenerator := idGenerator + 1;
      }
      storage := storage[saved.id.value := saved];
    }

    /** `findById`: the stored product, or null when the id is not a key. */
    method FindById(id: int) returns (r: Option<Product>)
      ensures r.Some? <==> id in storage
      ensures r.Some? ==> r.value == storage[id]
    {
      if id in storage {
        r := Some(storage[id]);
      } else {
        r := None;
      }
    }

    /** `findAll`: a fresh list of the stored values, in the map's iteration order. */
    method FindAll() returns (r: seq<Product>)
      ensures IsListing(storage, r)
    {
      r := [];
      ghost var ks: seq<int> := [];
      var pending := storage.Keys;
      while pending != {}
        invariant pending <= storage.Keys
        invariant |ks| == |r|
        invariant Distinct(ks)
        invariant forall i :: 0 <= i < |ks| ==> ks[i] in storage && ks[i] !in pending && r[i] == storage[ks[i]]
        invariant forall k :: k in storage ==> k in pending || k in ks
        decreases pending
      {
        // extensionality: a set that is not empty has a member to pick
        assert (forall x :: x !in pending) ==> pending == {};
        var k :| k in pending;
        r := r + [storage[k]];
        ks := ks + [k];
        pending := pending - {k};
      }
      assert ListsInOrder(storage, r, ks);
    }

    /** `deleteById`: removes that key, if present, and nothing else. */
    method DeleteById(id: int)
      requires Valid()
      modifies this
      ensures Valid()
      ensures storage == old(storage) - {id}
      ensures idGenerator == old(idGenerator)
    {
      storage := storage - {id};
    }

    /** `clear`: empties the store; the generator keeps its value. */
    method Clear()
      requires Valid()
      modifies this
      ensures Valid()
      ensures storage == map[]
      ensures idGenerator == old(idGenerator)
    {
      storage := map[];
    }

    /** `existsById`: whether the id is a key. */
    method ExistsById(id: int) returns (b: bool)
      ensures b <==> id in storage
    {
      b := id in storage;
    }
  }

  /** The repository's own test scenarios, as a client sees them through the contracts. */
  method RepositoryScenarios(p: Product, q: Product)
    requires p.id.None? && q.id.None?
  {
    var repo := new InMemoryProductRepository();
    var saved := repo.Save(p);
    var found := repo.FindById(saved.id.value);
    assert found == Some(saved) && saved.id == Some(1);
    var missing := repo.FindById(999);
    assert missing == None;
    var present := repo.ExistsById(1);
    assert present;
    var saved2 := repo.Save(q);
    assert saved2.id == Some(2);
    var all := repo.FindAll();
    ListingSize(repo.storage, all);
    ListingMembers(repo.storage, all);
    assert |all| == 2 && saved in all && saved2 in all;
    repo.DeleteById(1);
    found := repo.FindById(1);
    assert found == None;
    repo.Clear();
    all := repo.FindAll();
    EmptyListing(all);
    assert all == [];
  }
}
