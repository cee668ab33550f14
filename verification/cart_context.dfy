/** The cart state container of the storefront: line items, the two updaters
    that the provider hands to `setCart` (add a product, overwrite a quantity),
    and the rule that picks the cart's first value from the saved slot.

    Everything here is a value: an updater takes the previous cart and returns
    the next one, as `setCart(prev => ...)` does. */
module CartContext {

  /** A product identifier, compared with strict equality. */
  type Id(==)

  /** Every product field other than `id` and `quantity` (title, price, image,
      category, rating, ...), kept as one opaque snapshot. */
  type Snapshot

  /** A product record as the catalogue delivers it. */
  datatype Product = Product(id: Id, fields: Snapshot)

  /** A line item: the product's fields plus the requested quantity. */
  datatype Item = Item(id: Id, quantity: int, fields: Snapshot)

  /** The cart: an ordered list of line items. */
  type Cart = seq<Item>

  datatype Option<T> = None | Some(value: T)

  datatype Result<T, E> = Ok(value: T) | Err(error: E)

  /** Why the provider cannot produce its first cart. */
  datatype LoadError =
    | MalformedSaved   // the saved text is non-empty and the JSON decoder throws on it

  // ---------------------------------------------------------------------------
  // Queries on a cart

  /** Some line item carries `id`. */
  predicate HasId(c: Cart, id: Id) {
    exists k :: 0 <= k < |c| && c[k].id == id
  }

  /** No two line items carry the same id. */
  predicate Unique(c: Cart) {
    forall i, j :: 0 <= i < j < |c| ==> c[i].id != c[j].id
  }

  /** How many line items carry `id`. */
  function Count(c: Cart, id: Id): nat {
    if c == [] then 0 else (if c[0].id == id then 1 else 0) + Count(c[1..], id)
  }

  /** The sum of all quantities. */
  function Total(c: Cart): int {
    if c == [] then 0 else c[0].quantity + Total(c[1..])
  }

  /** The ids of the cart, in order. */
  function Ids(c: Cart): (r: seq<Id>)
    ensures |r| == |c| && forall k :: 0 <= k < |c| ==> r[k] == c[k].id
  {
    if c == [] then [] else [c[0].id] + Ids(c[1..])
  }

  // ---------------------------------------------------------------------------
  // The list primitives the updaters are built from

  /** `cart.find(item => item.id === id)`: the first line item carrying `id`,
      or nothing. */
  function Find(c: Cart, id: Id): (r: Option<Item>)
    ensures r.None? <==> !HasId(c, id)
    ensures r.Some? ==> r.value in c && r.value.id == id
  {
    if c == [] then None
    else if c[0].id == id then Some(c[0])
    else
      var r := Find(c[1..], id);
      assert HasId(c[1..], id) ==> HasId(c, id) by {
        if HasId(c[1..], id) {
          var k :| 0 <= k < |c[1..]| && c[1..][k].id == id;
          assert c[k + 1].id == id;
        }
      }
      r
  }

  /** What `Find` returns is the FIRST line item carrying `id`: the one at
      `k`, with no line item before `k` carrying it. */
  lemma {:induction false} FindFirst(c: Cart, id: Id)
    requires Find(c, id).Some?
    ensures exists k :: (0 <= k < |c| && c[k] == Find(c, id).value
                         && forall j :: 0 <= j < k ==> c[j].id != id)
  {
    if c[0].id != id {
      FindFirst(c[1..], id);
      var k :| 0 <= k < |c[1..]| && c[1..][k] == Find(c[1..], id).value
        && forall j :: 0 <= j < k ==> c[1..][j].id != id;
      forall j | 0 <= j < k + 1 ensures c[j].id != id {
        if j > 0 { assert c[j] == c[1..][j - 1]; }
      }
      assert c[k + 1] == Find(c, id).value;
    }
  }

  /** `cart.map(f)`: applies `f` to every line item, keeping the order. */
  function MapItems(c: Cart, f: Item -> Item): (r: Cart)
    ensures |r| == |c|
    ensures forall k :: 0 <= k < |c| ==> r[k] == f(c[k])
  {
    if c == [] then [] else [f(c[0])] + MapItems(c[1..], f)
  }

  /** The arrow function mapped by `addToCart` over an existing cart, applied
      to one line item: a line item carrying `id` becomes a copy with quantity
      one higher; any other line item is returned as it is. */
  function BumpIfMatching(item: Item, id: Id): (r: Item)
    ensures r.id == item.id && r.fields == item.fields
    ensures r.quantity == if item.id == id then item.quantity + 1 else item.quantity
  {
    if item.id == id then item.(quantity := item.quantity + 1) else item
  }

  /** That arrow function itself, as handed to `prev.map`. */
  function BumpMatching(id: Id): Item -> Item {
    (item: Item) => BumpIfMatching(item, id)
  }

  /** The arrow function mapped by `updateQuantity`, applied to one line item:
      a line item carrying `id` becomes a copy with quantity `q`, exactly as
      given; any other line item is returned as it is. */
  function RequantifyIfMatching(item: Item, id: Id, q: int): (r: Item)
    ensures r.id == item.id && r.fields == item.fields
    ensures r.quantity == if item.id == id then q else item.quantity
  {
    if item.id == id then item.(quantity := q) else item
  }

  /** That arrow function itself, as handed to `prev.map`. */
  function RequantifyMatching(id: Id, q: int): Item -> Item {
    (item: Item) => RequantifyIfMatching(item, id, q)
  }

  /** `{...product, quantity: 1}`: the line item for a product seen for the
      first time. */
  function NewItem(p: Product): (r: Item)
    ensures r.id == p.id && r.fields == p.fields && r.quantity == 1
  {
    Item(p.id, 1, p.fields)
  }

  // ---------------------------------------------------------------------------
  // The updaters

  /** `addToCart(product)`: when some line item already carries the product's
      id, every such line item gets one more unit and keeps the fields it was
      added with; otherwise the product is appended with quantity 1. */
  function AddToCart(c: Cart, p: Product): (r: Cart)
    ensures |r| == if HasId(c, p.id) then |c| else |c| + 1
    ensures forall k :: 0 <= k < |c| ==> r[k].id == c[k].id && r[k].fields == c[k].fields
    ensures forall k :: 0 <= k < |c| ==>
      r[k].quantity == if c[k].id == p.id then c[k].quantity + 1 else c[k].quantity
    ensures !HasId(c, p.id) ==> r[|c|] == NewItem(p)
  {
    match Find(c, p.id)
    case Some(_) => MapItems(c, BumpMatching(p.id))
    case None => c + [NewItem(p)]
  }

  /** `updateQuantity(id, quantity)`: every line item carrying `id` gets
      exactly `q`, with no clamping and no removal; nothing else changes and
      nothing is created. */
  function UpdateQuantity(c: Cart, id: Id, q: int): (r: Cart)
    ensures |r| == |c|
    ensures forall k :: 0 <= k < |c| ==> r[k].id == c[k].id && r[k].fields == c[k].fields
    ensures forall k :: 0 <= k < |c| ==> r[k].quantity == if c[k].id == id then q else c[k].quantity
  {
    MapItems(c, RequantifyMatching(id, q))
  }

  // ---------------------------------------------------------------------------
  // The first value of the cart

  /** The state initialiser `saved ? JSON.parse(saved) : []`. `saved` is what
      the storage slot holds (None when it is empty) and `parse` is the JSON
      decoder, None where it throws. A missing or empty saved text gives the
      empty cart; a non-empty one gives whatever the decoder makes of it, and
      a decoder failure is an error, not an empty cart. */
  function InitialCart(saved: Option<string>, parse: string -> Option<Cart>): (r: Result<Cart, LoadError>)
    ensures saved.None? ==> r == Ok([])
    ensures saved == Some("") ==> r == Ok([])
    ensures saved.Some? && saved.value != "" ==>
      match parse(saved.value)
      case Some(c) => r == Ok(c)
      case None => r == Err(MalformedSaved)
  {
    match saved
    case None => Ok([])
    case Some(s) =>
      if s == "" then Ok([])
      else match parse(s)
        case Some(c) => Ok(c)
        case None => Err(MalformedSaved)
  }

  // ---------------------------------------------------------------------------
  // Properties of addToCart

  /** A product whose id is not in the cart is appended, with quantity 1 and
      its own fields, behind the untouched earlier line items. */
  lemma AddNewAppends(c: Cart, p: Product)
    requires !HasId(c, p.id)
    ensures AddToCart(c, p) == c + [Item(p.id, 1, p.fields)]
  {
  }

  /** A product whose id is carried by exactly one line item, at `k`: the
      length stays, that line item gains one unit and keeps its original
      fields (not the fields of `p`), and every other line item is unchanged. */
  lemma AddExistingBumps(c: Cart, p: Product, k: nat)
    requires k < |c| && c[k].id == p.id
    requires forall j :: 0 <= j < |c| && j != k ==> c[j].id != p.id
    ensures |AddToCart(c, p)| == |c|
    ensures AddToCart(c, p)[k] == Item(c[k].id, c[k].quantity + 1, c[k].fields)
    ensures forall j :: 0 <= j < |c| && j != k ==> AddToCart(c, p)[j] == c[j]
  {
  }

  /** Adding keeps the ids of a cart unique. */
  lemma AddKeepsUnique(c: Cart, p: Product)
    requires Unique(c)
    ensures Unique(AddToCart(c, p))
  {
  }

  /** Adding keeps the existing ids in order and puts a new id last. */
  lemma AddIds(c: Cart, p: Product)
    ensures Ids(AddToCart(c, p)) == if HasId(c, p.id) then Ids(c) else Ids(c) + [p.id]
  {
  }

  /** `Count` and `HasId` agree. */
  lemma {:induction false} CountPositive(c: Cart, id: Id)
    ensures Count(c, id) > 0 <==> HasId(c, id)
  {
    if c != [] {
      CountPositive(c[1..], id);
      if HasId(c[1..], id) {
        var k :| 0 <= k < |c[1..]| && c[1..][k].id == id;
        assert c[k + 1].id == id;
      }
      if HasId(c, id) && c[0].id != id {
        var k :| 0 <= k < |c| && c[k].id == id;
        assert c[1..][k - 1].id == id;
      }
    }
  }

  /** A cart with unique ids carries each id at most once. */
  lemma {:induction false} CountUnique(c: Cart, id: Id)
    requires Unique(c)
    ensures Count(c, id) <= 1
  {
    if c != [] {
      assert Unique(c[1..]) by {
        forall i, j | 0 <= i < j < |c[1..]| ensures c[1..][i].id != c[1..][j].id {
          assert c[1..][i] == c[i + 1] && c[1..][j] == c[j + 1];
        }
      }
      CountUnique(c[1..], id);
      if c[0].id == id {
        assert !HasId(c[1..], id) by {
          forall k | 0 <= k < |c[1..]| ensures c[1..][k].id != id {
            assert c[1..][k] == c[k + 1];
          }
        }
        CountPositive(c[1..], id);
      }
    }
  }

  /** Appending one line item adds its quantity to the total. */
  lemma {:induction false} TotalAppend(c: Cart, x: Item)
    ensures Total(c + [x]) == Total(c) + x.quantity
  {
    if c != [] {
      assert (c + [x])[1..] == c[1..] + [x];
      TotalAppend(c[1..], x);
    }
  }

  /** Bumping every line item that carries `id` raises the total by the number
      of such line items. */
  lemma {:induction false} TotalBump(c: Cart, id: Id)
    ensures Total(MapItems(c, BumpMatching(id))) == Total(c) + Count(c, id)
  {
    if c != [] {
      var r := MapItems(c, BumpMatching(id));
      assert r[1..] == MapItems(c[1..], BumpMatching(id));
      TotalBump(c[1..], id);
    }
  }

  /** In general `addToCart` raises the total by 1 for a new id and by the
      number of line items carrying the id otherwise. */
  lemma TotalAfterAdd(c: Cart, p: Product)
    ensures Total(AddToCart(c, p)) == Total(c) + if HasId(c, p.id) then Count(c, p.id) else 1
  {
    if HasId(c, p.id) {
      TotalBump(c, p.id);
    } else {
      TotalAppend(c, NewItem(p));
    }
  }

  /** On a cart with unique ids, `addToCart` raises the total by exactly 1. */
  lemma TotalAfterAddUnique(c: Cart, p: Product)
    requires Unique(c)
    ensures Total(AddToCart(c, p)) == Total(c) + 1
  {
    TotalAfterAdd(c, p);
    CountUnique(c, p.id);
    CountPositive(c, p.id);
  }

  // ---------------------------------------------------------------------------
  // Properties of updateQuantity

  /** An id that no line item carries leaves the cart as it was. */
  lemma UpdateUnknownIsNoOp(c: Cart, id: Id, q: int)
    requires !HasId(c, id)
    ensures UpdateQuantity(c, id, q) == c
  {
  }

  /** The length, the order and the ids are kept, the matching line items hold
      exactly `q` (also when `q <= 0`: nothing is removed), and the other line
      items are unchanged. */
  lemma UpdateShape(c: Cart, id: Id, q: int)
    ensures Ids(UpdateQuantity(c, id, q)) == Ids(c)
    ensures forall k :: 0 <= k < |c| && c[k].id == id ==>
      UpdateQuantity(c, id, q)[k] == Item(id, q, c[k].fields)
    ensures forall k :: 0 <= k < |c| && c[k].id != id ==> UpdateQuantity(c, id, q)[k] == c[k]
  {
  }

  /** Updating keeps the ids of a cart unique. */
  lemma UpdateKeepsUnique(c: Cart, id: Id, q: int)
    requires Unique(c)
    ensures Unique(UpdateQuantity(c, id, q))
  {
  }

  /** Writing the same quantity twice is the same as writing it once. */
  lemma UpdateIdempotent(c: Cart, id: Id, q: int)
    ensures UpdateQuantity(UpdateQuantity(c, id, q), id, q) == UpdateQuantity(c, id, q)
  {
  }

  /** When the one line item that carries `id` sits at `k`, requantifying it
      changes the total by `q` minus its old quantity. */
  lemma {:induction false} TotalRequantify(c: Cart, id: Id, q: int, k: nat)
    requires k < |c| && c[k].id == id
    requires forall j :: 0 <= j < |c| && j != k ==> c[j].id != id
    ensures Total(UpdateQuantity(c, id, q)) == Total(c) - c[k].quantity + q
  {
    var r := UpdateQuantity(c, id, q);
    assert r[1..] == UpdateQuantity(c[1..], id, q);
    if k == 0 {
      assert !HasId(c[1..], id) by {
        forall j | 0 <= j < |c[1..]| ensures c[1..][j].id != id {
          assert c[1..][j] == c[j + 1];
        }
      }
      UpdateUnknownIsNoOp(c[1..], id, q);
    } else {
      TotalRequantify(c[1..], id, q, k - 1);
    }
  }

  /** On a cart with unique ids, updating the line item at `k` moves the
      total by the difference between the new and the old quantity. */
  lemma TotalAfterUpdateUnique(c: Cart, id: Id, q: int, k: nat)
    requires Unique(c) && k < |c| && c[k].id == id
    ensures Total(UpdateQuantity(c, id, q)) == Total(c) - c[k].quantity + q
  {
    TotalRequantify(c, id, q, k);
  }

  // ---------------------------------------------------------------------------
  // Sequences of calls

  /** Calling `addToCart` once per product, in order. */
  function AddAll(c: Cart, ps: seq<Product>): Cart
    decreases |ps|
  {
    if ps == [] then c else AddAll(AddToCart(c, ps[0]), ps[1..])
  }

  /** The line items that fresh products become. */
  function NewItems(ps: seq<Product>): (r: Cart)
    ensures |r| == |ps| && forall k :: 0 <= k < |ps| ==> r[k] == NewItem(ps[k])
  {
    if ps == [] then [] else [NewItem(ps[0])] + NewItems(ps[1..])
  }

  /** No two products share an id. */
  predicate DistinctIds(ps: seq<Product>) {
    forall i, j :: 0 <= i < j < |ps| ==> ps[i].id != ps[j].id
  }

  /** Products with distinct ids, none of them in the cart, are appended in
      order, each with quantity 1. */
  lemma {:induction false} AddAllDistinct(c: Cart, ps: seq<Product>)
    requires DistinctIds(ps)
    requires forall k :: 0 <= k < |ps| ==> !HasId(c, ps[k].id)
    ensures AddAll(c, ps) == c + NewItems(ps)
    decreases |ps|
  {
    if ps != [] {
      var c' := c + [NewItem(ps[0])];
      AddAllFirstNew(c, ps);
      AbsentAfterFirst(c, ps);
      AddAllDistinct(c', ps[1..]);
      AppendNewItems(c, ps);
    }
  }

  /** Appending the first product's line item and then the rest's is
      appending them all. */
  lemma AppendNewItems(c: Cart, ps: seq<Product>)
    requires ps != []
    ensures (c + [NewItem(ps[0])]) + NewItems(ps[1..]) == c + NewItems(ps)
  {
    assert NewItems(ps) == [NewItem(ps[0])] + NewItems(ps[1..]);
  }

  /** Adding a list whose first product is new appends that product first. */
  lemma AddAllFirstNew(c: Cart, ps: seq<Product>)
    requires ps != [] && !HasId(c, ps[0].id)
    ensures AddAll(c, ps) == AddAll(c + [NewItem(ps[0])], ps[1..])
  {
    AddNewAppends(c, ps[0]);
  }

  /** Once the first of several products with distinct ids, all absent from
      the cart, has been appended, the others are still absent and distinct. */
  lemma AbsentAfterFirst(c: Cart, ps: seq<Product>)
    requires DistinctIds(ps) && ps != []
    requires forall k :: 0 <= k < |ps| ==> !HasId(c, ps[k].id)
    ensures DistinctIds(ps[1..])
    ensures forall k :: 0 <= k < |ps[1..]| ==> !HasId(c + [NewItem(ps[0])], ps[1..][k].id)
  {
    DistinctTail(ps);
    forall k | 0 <= k < |ps[1..]| ensures !HasId(c + [NewItem(ps[0])], ps[1..][k].id) {
      assert ps[1..][k] == ps[k + 1];
      AppendKeepsAbsent(c, NewItem(ps[0]), ps[1..][k].id);
    }
  }

  /** The products after the first keep distinct ids, none of them the first
      product's id, and none of them in a cart that lacked them all. */
  lemma DistinctTail(ps: seq<Product>)
    requires DistinctIds(ps) && ps != []
    ensures DistinctIds(ps[1..])
    ensures forall k :: 0 <= k < |ps[1..]| ==> ps[1..][k].id != ps[0].id
  {
    forall i, j | 0 <= i < j < |ps[1..]| ensures ps[1..][i].id != ps[1..][j].id {
      assert ps[1..][i] == ps[i + 1] && ps[1..][j] == ps[j + 1];
    }
    forall k | 0 <= k < |ps[1..]| ensures ps[1..][k].id != ps[0].id {
      assert ps[1..][k] == ps[k + 1];
    }
  }

  /** Appending a line item with another id leaves `id` absent. */
  lemma AppendKeepsAbsent(c: Cart, x: Item, id: Id)
    requires !HasId(c, id) && x.id != id
    ensures !HasId(c + [x], id)
  {
    forall j | 0 <= j < |c + [x]| ensures (c + [x])[j].id != id {
      if j < |c| {
        assert (c + [x])[j] == c[j];
      }
    }
  }

  /** Starting from the empty cart, `n` products with distinct ids give `n`
      line items, each with quantity 1. */
  lemma AddAllDistinctFromEmpty(ps: seq<Product>)
    requires DistinctIds(ps)
    ensures |AddAll([], ps)| == |ps|
    ensures forall k :: 0 <= k < |ps| ==> AddAll([], ps)[k] == Item(ps[k].id, 1, ps[k].fields)
  {
    AddAllDistinct([], ps);
  }

  /** Adding the same product `n` times to a cart that lacks its id leaves one
      line item for it, at the end, with quantity `n`. */
  lemma {:induction false} AddRepeatedly(c: Cart, p: Product, n: nat)
    requires !HasId(c, p.id) && n >= 1
    ensures AddAll(c, seq(n, _ => p)) == c + [Item(p.id, n, p.fields)]
  {
    if n == 1 {
      assert seq(1, _ => p)[1..] == [];
    } else {
      AddRepeatedly(c, p, n - 1);
      var d := c + [Item(p.id, n - 1, p.fields)];
      assert AddAll(c, seq(n - 1, _ => p)) == d;
      AddThenBump(c, p, n - 1);
    }
  }

  /** Appending one more copy of `p` to the list of added products bumps the
      line item created by the first copy. */
  lemma {:induction false} AddThenBump(c: Cart, p: Product, m: nat)
    requires !HasId(c, p.id) && m >= 1
    requires AddAll(c, seq(m, _ => p)) == c + [Item(p.id, m, p.fields)]
    ensures AddAll(c, seq(m + 1, _ => p)) == c + [Item(p.id, m + 1, p.fields)]
  {
    AddAllSnoc(c, seq(m, _ => p), p);
    assert seq(m, _ => p) + [p] == seq(m + 1, _ => p);
    var d := c + [Item(p.id, m, p.fields)];
    AddExistingBumps(d, p, |c|);
    assert AddToCart(d, p) == c + [Item(p.id, m + 1, p.fields)];
  }

  /** Adding a list of products and then one more is adding the longer list. */
  lemma {:induction false} AddAllSnoc(c: Cart, ps: seq<Product>, p: Product)
    ensures AddAll(c, ps + [p]) == AddToCart(AddAll(c, ps), p)
    decreases |ps|
  {
    if ps != [] {
      assert (ps + [p])[1..] == ps[1..] + [p];
      AddAllSnoc(AddToCart(c, ps[0]), ps[1..], p);
    } else {
      assert ([] + [p])[1..] == [];
    }
  }

  /** The code keeps a line item whose quantity is set to 0: starting empty,
      adding a product twice and setting its quantity to 5 and then to 0 ends
      with that product's line item holding quantity 0. */
  lemma ZeroQuantityIsKept(p: Product, p2: Product)
    requires p2.id == p.id
    ensures AddToCart([], p) == [Item(p.id, 1, p.fields)]
    ensures AddToCart(AddToCart([], p), p2) == [Item(p.id, 2, p.fields)]
    ensures UpdateQuantity(AddToCart(AddToCart([], p), p2), p.id, 5) == [Item(p.id, 5, p.fields)]
    ensures UpdateQuantity(UpdateQuantity(AddToCart(AddToCart([], p), p2), p.id, 5), p.id, 0)
         == [Item(p.id, 0, p.fields)]
  {
    var one := AddToCart([], p);
    AddNewAppends([], p);
    AddExistingBumps(one, p2, 0);
  }

  // ---------------------------------------------------------------------------
  // Persistence round trip

  /** The effect stores the encoded cart after every change; when the codec
      round-trips (and, like JSON text for an array, never encodes to the empty
      text), the next start-up recovers exactly that cart. */
  lemma ReloadAfterSave(c: Cart, stringify: Cart -> string, parse: string -> Option<Cart>)
    requires stringify(c) != "" && parse(stringify(c)) == Some(c)
    ensures InitialCart(Some(stringify(c)), parse) == Ok(c)
  {
  }
}
