/**
 * The point-of-sale cart (frontend/src/app/order/page.tsx): the lines of
 * products being ordered, the three handlers that change them, the cart
 * total, and the order request the checkout sends to the backend.
 */
module Cart {
  import opened Time
  import opened Records
  import opened OrderLifecycle

  const WalkInCustomer: string := "Walk-in Customer"
  const CashPayment: string := "Cash"

  datatype Product = Product(id: nat, name: string, price: real, image: string,
                             category: Option<string>, description: Option<string>)

  datatype CartLine = CartLine(item: Product, quantity: int)

  predicate Has(cart: seq<CartLine>, id: nat) {
    exists i :: 0 <= i < |cart| && cart[i].item.id == id
  }

  /** No product appears on two lines */
  predicate UniqueIds(cart: seq<CartLine>) {
    forall i, j :: 0 <= i < j < |cart| ==> cart[i].item.id != cart[j].item.id
  }

  /** Every line orders at least one unit */
  predicate AllPositive(cart: seq<CartLine>) {
    forall i :: 0 <= i < |cart| ==> cart[i].quantity >= 1
  }

  /** The first line of the product, as `find` returns it */
  function IndexOf(cart: seq<CartLine>, id: nat): (k: nat)
    requires Has(cart, id)
    ensures k < |cart| && cart[k].item.id == id
    ensures forall j :: 0 <= j < k ==> cart[j].item.id != id
  {
    if cart[0].item.id == id then 0
    else
      assert Has(cart[1..], id) by {
        var i :| 0 <= i < |cart| && cart[i].item.id == id;
        assert cart[1..][i - 1] == cart[i];
      }
      1 + IndexOf(cart[1..], id)
  }

  function LineTotal(line: CartLine): real {
    line.item.price * line.quantity as real
  }

  /** The cart total: the sum of price times quantity over the lines */
  function CartTotal(cart: seq<CartLine>): (r: real)
    ensures (forall i :: 0 <= i < |cart| ==> LineTotal(cart[i]) >= 0.0) ==> r >= 0.0
  {
    if cart == [] then 0.0 else LineTotal(cart[0]) + CartTotal(cart[1..])
  }

  lemma {:induction false} CartTotalAppend(a: seq<CartLine>, b: seq<CartLine>)
    ensures CartTotal(a + b) == CartTotal(a) + CartTotal(b)
  {
    if a == [] {
      assert a + b == b;
    } else {
      assert (a + b)[0] == a[0];
      assert (a + b)[1..] == a[1..] + b;
      CartTotalAppend(a[1..], b);
    }
  }

  /** The total of a cart with line `k` replaced by `x` */
  lemma CartTotalSplice(cart: seq<CartLine>, k: nat, x: seq<CartLine>)
    requires k < |cart|
    ensures CartTotal(cart[..k] + x + cart[k + 1..]) == CartTotal(cart) - LineTotal(cart[k]) + CartTotal(x)
  {
    assert cart == cart[..k] + [cart[k]] + cart[k + 1..];
    CartTotalAppend(cart[..k] + [cart[k]], cart[k + 1..]);
    CartTotalAppend(cart[..k], [cart[k]]);
    CartTotalAppend(cart[..k] + x, cart[k + 1..]);
    CartTotalAppend(cart[..k], x);
    assert [cart[k]][1..] == [];
  }

  /** Where line `i` of a cart with line `k` replaced by `n` lines came from */
  function Origin(i: int, k: int, n: int): int {
    if i < k then i else if i < k + n then k else i + 1 - n
  }

  /** Replacing one line by at most one line of the same product keeps the cart valid */
  lemma SpliceKeepsCartValid(cart: seq<CartLine>, k: nat, x: seq<CartLine>)
    requires k < |cart| && UniqueIds(cart) && AllPositive(cart)
    requires |x| <= 1 && forall i :: 0 <= i < |x| ==> x[i].item.id == cart[k].item.id && x[i].quantity >= 1
    ensures UniqueIds(cart[..k] + x + cart[k + 1..]) && AllPositive(cart[..k] + x + cart[k + 1..])
  {
    var r := cart[..k] + x + cart[k + 1..];
    forall i | 0 <= i < |r|
      ensures 0 <= Origin(i, k, |x|) < |cart| && r[i].item.id == cart[Origin(i, k, |x|)].item.id && r[i].quantity >= 1
    {
      if i < k {
        assert r[i] == cart[i];
      } else if i < k + |x| {
        assert r[i] == x[i - k];
      } else {
        assert r[i] == cart[i + 1 - |x|];
      }
    }
    forall i, j | 0 <= i < j < |r| ensures r[i].item.id != r[j].item.id {
      assert Origin(i, k, |x|) < Origin(j, k, |x|);
    }
  }

  lemma OneUnitMore(line: CartLine)
    ensures LineTotal(line.(quantity := line.quantity + 1)) == LineTotal(line) + line.item.price
  {
    var p := line.item.price;
    var q := line.quantity as real;
    assert (line.quantity + 1) as real == q + 1.0;
    assert p * (q + 1.0) == p * q + p;
  }

  lemma OneUnitLess(line: CartLine)
    ensures LineTotal(line.(quantity := line.quantity - 1)) == LineTotal(line) - line.item.price
  {
    var p := line.item.price;
    var q := line.quantity as real;
    assert (line.quantity - 1) as real == q - 1.0;
    assert p * (q - 1.0) == p * q - p;
  }

  // ----- adding -----

  /** Every line of the product gets one more unit; the other lines are kept */
  function Bump(cart: seq<CartLine>, id: nat): (r: seq<CartLine>)
    ensures |r| == |cart|
  {
    if cart == [] then []
    else [if cart[0].item.id == id then cart[0].(quantity := cart[0].quantity + 1) else cart[0]]
         + Bump(cart[1..], id)
  }

  lemma {:induction false} BumpLines(cart: seq<CartLine>, id: nat)
    ensures forall i :: 0 <= i < |cart| ==>
              Bump(cart, id)[i].item == cart[i].item
              && Bump(cart, id)[i].quantity == cart[i].quantity + (if cart[i].item.id == id then 1 else 0)
  {
    if cart != [] {
      BumpLines(cart[1..], id);
      var r := Bump(cart, id);
      forall i | 1 <= i < |cart| ensures r[i] == Bump(cart[1..], id)[i - 1] && cart[i] == cart[1..][i - 1] {
      }
    }
  }

  /** `handleAddToCart`: one more unit of a product already in the cart, else a new line of one */
  function AddToCart(cart: seq<CartLine>, p: Product): (r: seq<CartLine>)
    ensures |r| == if Has(cart, p.id) then |cart| else |cart| + 1
  {
    if Has(cart, p.id) then Bump(cart, p.id) else cart + [CartLine(p, 1)]
  }

  /**
   * With distinct products per line, adding a product already in the cart
   * raises only its own line's quantity by one, in place; adding any other
   * product appends a line of one unit.
   */
  lemma AddToCartShape(cart: seq<CartLine>, p: Product)
    requires UniqueIds(cart)
    ensures Has(cart, p.id) ==>
              var k := IndexOf(cart, p.id);
              AddToCart(cart, p) == cart[..k] + [cart[k].(quantity := cart[k].quantity + 1)] + cart[k + 1..]
    ensures !Has(cart, p.id) ==> AddToCart(cart, p) == cart + [CartLine(p, 1)]
  {
    if Has(cart, p.id) {
      var k := IndexOf(cart, p.id);
      var r := Bump(cart, p.id);
      BumpLines(cart, p.id);
      var x := CartLine(cart[k].item, cart[k].quantity + 1);
      var expected := cart[..k] + [x] + cart[k + 1..];
      assert |r| == |expected|;
      forall i | 0 <= i < |r| ensures r[i] == expected[i] {
        if i < k {
          assert expected[i] == cart[i];
        } else if i == k {
          assert expected[i] == x;
        } else {
          assert expected[i] == cart[i];
          assert cart[i].item.id != p.id;
        }
      }
      assert x == cart[k].(quantity := cart[k].quantity + 1);
    }
  }


  /** Adding keeps the products distinct and every quantity at least one */
  lemma AddKeepsCartValid(cart: seq<CartLine>, p: Product)
    requires UniqueIds(cart) && AllPositive(cart)
    ensures UniqueIds(AddToCart(cart, p)) && AllPositive(AddToCart(cart, p))
  {
    AddToCartShape(cart, p);
    if Has(cart, p.id) {
      var k := IndexOf(cart, p.id);
      SpliceKeepsCartValid(cart, k, [cart[k].(quantity := cart[k].quantity + 1)]);
    } else {
      var r := AddToCart(cart, p);
      forall i, j | 0 <= i < j < |r| ensures r[i].item.id != r[j].item.id {
        if j == |cart| {
          assert r[i] == cart[i];
        }
      }
    }
  }

  /**
   * Adding raises the total by one unit's price: that of the line already
   * in the cart, or the product's own when it is new.
   */
  lemma AddRaisesTotal(cart: seq<CartLine>, p: Product)
    requires UniqueIds(cart)
    ensures CartTotal(AddToCart(cart, p))
            == CartTotal(cart) + (if Has(cart, p.id) then cart[IndexOf(cart, p.id)].item.price else p.price)
  {
    if Has(cart, p.id) {
      var k := IndexOf(cart, p.id);
      assert AddToCart(cart, p) == cart[..k] + [cart[k].(quantity := cart[k].quantity + 1)] + cart[k + 1..] by {
        AddToCartShape(cart, p);
      }
      AddOneUnitTotal(cart, k);
    } else {
      CartTotalAppend(cart, [CartLine(p, 1)]);
      CartTotalSingle(CartLine(p, 1));
      assert LineTotal(CartLine(p, 1)) == p.price;
    }
  }

  /** So adding raises the total by the product's price whenever the cart holds it at that price */
  lemma AddAtListedPrice(cart: seq<CartLine>, p: Product)
    requires UniqueIds(cart)
    requires forall i :: 0 <= i < |cart| && cart[i].item.id == p.id ==> cart[i].item.price == p.price
    ensures CartTotal(AddToCart(cart, p)) == CartTotal(cart) + p.price
  {
    AddRaisesTotal(cart, p);
    if Has(cart, p.id) {
      var k := IndexOf(cart, p.id);
      assert cart[k].item.price == p.price;
    }
  }

  lemma AddOneUnitTotal(cart: seq<CartLine>, k: nat)
    requires k < |cart|
    ensures CartTotal(cart[..k] + [cart[k].(quantity := cart[k].quantity + 1)] + cart[k + 1..])
            == CartTotal(cart) + cart[k].item.price
  {
    var line := cart[k];
    var y := CartLine(line.item, line.quantity + 1);
    assert y == cart[k].(quantity := cart[k].quantity + 1);
    CartTotalReplace(cart, k, y);
    OneUnitMore(line);
  }

  /** The total of a cart with line `k` replaced by the line `y` */
  lemma CartTotalReplace(cart: seq<CartLine>, k: nat, y: CartLine)
    requires k < |cart|
    ensures CartTotal(cart[..k] + [y] + cart[k + 1..]) == CartTotal(cart) - LineTotal(cart[k]) + LineTotal(y)
  {
    CartTotalSplice(cart, k, [y]);
    CartTotalSingle(y);
  }

  lemma CartTotalSingle(line: CartLine)
    ensures CartTotal([line]) == LineTotal(line)
  {
    assert [line][1..] == [];
  }

  // ----- removing -----

  /** `handleRemoveFromCart`: drop the lines of the product, keeping the others in order */
  function RemoveFromCart(cart: seq<CartLine>, id: nat): (r: seq<CartLine>)
    ensures |r| <= |cart|
    ensures forall i :: 0 <= i < |r| ==> r[i].item.id != id
  {
    if cart == [] then []
    else (if cart[0].item.id == id then [] else [cart[0]]) + RemoveFromCart(cart[1..], id)
  }

  /** Removing keeps exactly the lines of the other products, whatever the cart */
  lemma {:induction false} RemoveMembers(cart: seq<CartLine>, id: nat)
    ensures forall line :: line in RemoveFromCart(cart, id) <==> line in cart && line.item.id != id
  {
    if cart != [] {
      RemoveMembers(cart[1..], id);
      assert cart == [cart[0]] + cart[1..];
    }
  }

  lemma {:induction false} RemoveAbsent(cart: seq<CartLine>, id: nat)
    requires !Has(cart, id)
    ensures RemoveFromCart(cart, id) == cart
  {
    if cart != [] {
      assert !Has(cart[1..], id) by {
        forall i | 0 <= i < |cart[1..]| ensures cart[1..][i].item.id != id {
          assert cart[1..][i] == cart[i + 1];
        }
      }
      RemoveAbsent(cart[1..], id);
      assert cart == [cart[0]] + cart[1..];
    }
  }

  lemma {:induction false} RemoveAppend(a: seq<CartLine>, b: seq<CartLine>, id: nat)
    ensures RemoveFromCart(a + b, id) == RemoveFromCart(a, id) + RemoveFromCart(b, id)
  {
    if a == [] {
      assert a + b == b;
    } else {
      assert (a + b)[0] == a[0];
      assert (a + b)[1..] == a[1..] + b;
      RemoveAppend(a[1..], b, id);
    }
  }

  /** With distinct products per line, removing takes out exactly the product's line */
  lemma RemoveShape(cart: seq<CartLine>, id: nat)
    requires UniqueIds(cart)
    ensures Has(cart, id) ==>
              var k := IndexOf(cart, id);
              RemoveFromCart(cart, id) == cart[..k] + cart[k + 1..]
    ensures !Has(cart, id) ==> RemoveFromCart(cart, id) == cart
  {
    if Has(cart, id) {
      var k := IndexOf(cart, id);
      var head, tail := cart[..k], cart[k + 1..];
      assert !Has(head, id) by {
        forall i | 0 <= i < |head| ensures head[i].item.id != id {
          assert head[i] == cart[i];
        }
      }
      assert !Has(tail, id) by {
        forall i | 0 <= i < |tail| ensures tail[i].item.id != id {
          assert tail[i] == cart[k + 1 + i];
        }
      }
      RemoveOnly(cart, k, id);
    } else {
      RemoveAbsent(cart, id);
    }
  }

  /** Removing from a cart whose only line of the product is line `k` */
  lemma RemoveOnly(cart: seq<CartLine>, k: nat, id: nat)
    requires k < |cart| && cart[k].item.id == id && !Has(cart[..k], id) && !Has(cart[k + 1..], id)
    ensures RemoveFromCart(cart, id) == cart[..k] + cart[k + 1..]
  {
    var head, tail := cart[..k], cart[k + 1..];
    calc {
      RemoveFromCart(cart, id);
      { assert cart == head + [cart[k]] + tail; }
      RemoveFromCart(head + [cart[k]] + tail, id);
      { RemoveAppend(head + [cart[k]], tail, id); }
      RemoveFromCart(head + [cart[k]], id) + RemoveFromCart(tail, id);
      { RemoveAppend(head, [cart[k]], id); }
      RemoveFromCart(head, id) + RemoveFromCart([cart[k]], id) + RemoveFromCart(tail, id);
      { RemoveAbsent(head, id); RemoveAbsent(tail, id); assert [cart[k]][1..] == []; }
      head + [] + tail;
    }
    assert head + [] + tail == head + tail;
  }

  /** Removing keeps the products distinct and every quantity at least one */
  lemma RemoveKeepsCartValid(cart: seq<CartLine>, id: nat)
    requires UniqueIds(cart) && AllPositive(cart)
    ensures UniqueIds(RemoveFromCart(cart, id)) && AllPositive(RemoveFromCart(cart, id))
  {
    RemoveShape(cart, id);
    if Has(cart, id) {
      var k := IndexOf(cart, id);
      SpliceKeepsCartValid(cart, k, []);
      assert cart[..k] + [] + cart[k + 1..] == cart[..k] + cart[k + 1..];
    }
  }

  /** Removing lowers the total by the removed line's total */
  lemma RemoveLowersTotal(cart: seq<CartLine>, id: nat)
    requires UniqueIds(cart)
    ensures CartTotal(RemoveFromCart(cart, id))
            == CartTotal(cart) - (if Has(cart, id) then LineTotal(cart[IndexOf(cart, id)]) else 0.0)
  {
    RemoveShape(cart, id);
    if Has(cart, id) {
      var k := IndexOf(cart, id);
      CartTotalSplice(cart, k, []);
      assert cart[..k] + [] + cart[k + 1..] == cart[..k] + cart[k + 1..];
    }
  }

  // ----- decreasing -----

  function Max(a: int, b: int): int { if a >= b then a else b }

  /** Every line of the product loses one unit, down to zero */
  function Lower(cart: seq<CartLine>, id: nat): (r: seq<CartLine>)
    ensures |r| == |cart|
  {
    if cart == [] then []
    else [if cart[0].item.id == id then cart[0].(quantity := Max(0, cart[0].quantity - 1)) else cart[0]]
         + Lower(cart[1..], id)
  }

  lemma {:induction false} LowerLines(cart: seq<CartLine>, id: nat)
    ensures forall i :: 0 <= i < |cart| ==>
              Lower(cart, id)[i].item == cart[i].item
              && Lower(cart, id)[i].quantity
                 == if cart[i].item.id == id then Max(0, cart[i].quantity - 1) else cart[i].quantity
  {
    if cart != [] {
      LowerLines(cart[1..], id);
      var r := Lower(cart, id);
      forall i | 1 <= i < |cart| ensures r[i] == Lower(cart[1..], id)[i - 1] && cart[i] == cart[1..][i - 1] {
      }
    }
  }

  /** The lines with a positive quantity, in order */
  function DropEmpty(cart: seq<CartLine>): (r: seq<CartLine>)
    ensures |r| <= |cart|
    ensures forall i :: 0 <= i < |r| ==> r[i].quantity > 0
  {
    if cart == [] then []
    else (if cart[0].quantity > 0 then [cart[0]] else []) + DropEmpty(cart[1..])
  }

  /** `handleDecreaseQuantity`: one unit less of the product, dropping any line left empty */
  function DecreaseQuantity(cart: seq<CartLine>, id: nat): (r: seq<CartLine>)
    ensures |r| <= |cart|
    ensures forall i :: 0 <= i < |r| ==> r[i].quantity > 0
  {
    DropEmpty(Lower(cart, id))
  }

  lemma {:induction false} DropEmptyAppend(a: seq<CartLine>, b: seq<CartLine>)
    ensures DropEmpty(a + b) == DropEmpty(a) + DropEmpty(b)
  {
    if a == [] {
      assert a + b == b;
    } else {
      var head := if a[0].quantity > 0 then [a[0]] else [];
      assert (a + b)[0] == a[0];
      assert (a + b)[1..] == a[1..] + b;
      assert DropEmpty(a + b) == head + DropEmpty(a[1..] + b);
      DropEmptyAppend(a[1..], b);
      assert head + (DropEmpty(a[1..]) + DropEmpty(b)) == (head + DropEmpty(a[1..])) + DropEmpty(b);
    }
  }

  lemma {:induction false} DropEmptyPositive(cart: seq<CartLine>)
    requires AllPositive(cart)
    ensures DropEmpty(cart) == cart
  {
    if cart != [] {
      assert AllPositive(cart[1..]) by {
        forall i | 0 <= i < |cart[1..]| ensures cart[1..][i].quantity >= 1 {
          assert cart[1..][i] == cart[i + 1];
        }
      }
      DropEmptyPositive(cart[1..]);
      assert cart == [cart[0]] + cart[1..];
    }
  }

  lemma LowerShape(cart: seq<CartLine>, id: nat)
    requires UniqueIds(cart) && Has(cart, id)
    ensures var k := IndexOf(cart, id);
            Lower(cart, id) == cart[..k] + [cart[k].(quantity := Max(0, cart[k].quantity - 1))] + cart[k + 1..]
  {
    var k := IndexOf(cart, id);
    var r := Lower(cart, id);
    LowerLines(cart, id);
    var x := CartLine(cart[k].item, Max(0, cart[k].quantity - 1));
    var expected := cart[..k] + [x] + cart[k + 1..];
    assert |r| == |expected|;
    forall i | 0 <= i < |r| ensures r[i] == expected[i] {
      if i < k {
        assert expected[i] == cart[i];
      } else if i == k {
        assert expected[i] == x;
      } else {
        assert expected[i] == cart[i];
        assert cart[i].item.id != id;
      }
    }
    assert x == cart[k].(quantity := Max(0, cart[k].quantity - 1));
  }


  lemma LowerAbsent(cart: seq<CartLine>, id: nat)
    requires !Has(cart, id)
    ensures Lower(cart, id) == cart
  {
    var r := Lower(cart, id);
    LowerLines(cart, id);
    forall i | 0 <= i < |r| ensures r[i] == cart[i] {
      assert cart[i].item.id != id;
    }
  }

  lemma AllPositiveSlices(cart: seq<CartLine>, k: nat)
    requires k < |cart| && AllPositive(cart)
    ensures AllPositive(cart[..k]) && AllPositive(cart[k + 1..])
  {
    forall i | 0 <= i < k ensures cart[..k][i].quantity >= 1 {
      assert cart[..k][i] == cart[i];
    }
    var tail := cart[k + 1..];
    forall i | 0 <= i < |tail| ensures tail[i].quantity >= 1 {
      assert tail[i] == cart[k + 1 + i];
    }
  }

  /** Decreasing a product in the cart replaces its line by what is left of it, if anything */
  lemma DecreaseSplit(cart: seq<CartLine>, id: nat)
    requires UniqueIds(cart) && AllPositive(cart) && Has(cart, id)
    ensures var k := IndexOf(cart, id);
            DecreaseQuantity(cart, id)
            == cart[..k] + DropEmpty([CartLine(cart[k].item, Max(0, cart[k].quantity - 1))]) + cart[k + 1..]
  {
    var k := IndexOf(cart, id);
    var x := CartLine(cart[k].item, Max(0, cart[k].quantity - 1));
    LowerShape(cart, id);
    assert Lower(cart, id) == cart[..k] + [x] + cart[k + 1..];
    AllPositiveSlices(cart, k);
    DropEmptyAround(cart[..k], [x], cart[k + 1..]);
  }

  /** Dropping empty lines only touches the middle of a cart whose ends have none */
  lemma DropEmptyAround(head: seq<CartLine>, mid: seq<CartLine>, tail: seq<CartLine>)
    requires AllPositive(head) && AllPositive(tail)
    ensures DropEmpty(head + mid + tail) == head + DropEmpty(mid) + tail
  {
    DropEmptyAppend(head + mid, tail);
    DropEmptyAppend(head, mid);
    DropEmptyPositive(head);
    DropEmptyPositive(tail);
  }

  /**
   * With distinct products per line and no empty line, decreasing a product
   * in the cart lowers its quantity by one in place, or removes its line
   * when that was the last unit.
   */
  lemma DecreaseShape(cart: seq<CartLine>, id: nat)
    requires UniqueIds(cart) && AllPositive(cart) && Has(cart, id)
    ensures var k := IndexOf(cart, id);
            && (cart[k].quantity > 1 ==>
                  DecreaseQuantity(cart, id) == cart[..k] + [cart[k].(quantity := cart[k].quantity - 1)] + cart[k + 1..])
            && (cart[k].quantity == 1 ==> DecreaseQuantity(cart, id) == cart[..k] + cart[k + 1..])
  {
    var k := IndexOf(cart, id);
    var x := CartLine(cart[k].item, Max(0, cart[k].quantity - 1));
    DecreaseSplit(cart, id);
    assert [x][1..] == [];
    if cart[k].quantity == 1 {
      assert DropEmpty([x]) == [];
      assert cart[..k] + [] == cart[..k];
    } else {
      assert DropEmpty([x]) == [x];
      assert x == cart[k].(quantity := cart[k].quantity - 1);
    }
  }

  /** Decreasing a product that is not in a cart without empty lines changes nothing */
  lemma DecreaseAbsent(cart: seq<CartLine>, id: nat)
    requires AllPositive(cart) && !Has(cart, id)
    ensures DecreaseQuantity(cart, id) == cart
  {
    LowerAbsent(cart, id);
    DropEmptyPositive(cart);
  }

  /** Decreasing keeps the products distinct and every quantity at least one */
  lemma DecreaseKeepsCartValid(cart: seq<CartLine>, id: nat)
    requires UniqueIds(cart) && AllPositive(cart)
    ensures UniqueIds(DecreaseQuantity(cart, id)) && AllPositive(DecreaseQuantity(cart, id))
  {
    if Has(cart, id) {
      var k := IndexOf(cart, id);
      if cart[k].quantity == 1 {
        assert DecreaseQuantity(cart, id) == cart[..k] + [] + cart[k + 1..] by {
          DecreaseShape(cart, id);
          assert cart[..k] + [] + cart[k + 1..] == cart[..k] + cart[k + 1..];
        }
        SpliceKeepsCartValid(cart, k, []);
      } else {
        assert DecreaseQuantity(cart, id) == cart[..k] + [cart[k].(quantity := cart[k].quantity - 1)] + cart[k + 1..] by {
          DecreaseShape(cart, id);
        }
        SpliceKeepsCartValid(cart, k, [cart[k].(quantity := cart[k].quantity - 1)]);
      }
    } else {
      DecreaseAbsent(cart, id);
    }
  }

  /** Decreasing a product in the cart lowers the total by one unit's price */
  lemma DecreaseLowersTotal(cart: seq<CartLine>, id: nat)
    requires UniqueIds(cart) && AllPositive(cart)
    ensures CartTotal(DecreaseQuantity(cart, id))
            == CartTotal(cart) - (if Has(cart, id) then cart[IndexOf(cart, id)].item.price else 0.0)
  {
    if Has(cart, id) {
      DecreasePresentTotal(cart, id);
    } else {
      DecreaseAbsent(cart, id);
    }
  }

  lemma DecreasePresentTotal(cart: seq<CartLine>, id: nat)
    requires UniqueIds(cart) && AllPositive(cart) && Has(cart, id)
    ensures CartTotal(DecreaseQuantity(cart, id)) == CartTotal(cart) - cart[IndexOf(cart, id)].item.price
  {
    var k := IndexOf(cart, id);
    DecreaseShape(cart, id);
    if cart[k].quantity == 1 {
      DropLastUnitTotal(cart, k);
    } else {
      LoseOneUnitTotal(cart, k);
    }
  }

  lemma DropLastUnitTotal(cart: seq<CartLine>, k: nat)
    requires k < |cart| && cart[k].quantity == 1
    ensures CartTotal(cart[..k] + cart[k + 1..]) == CartTotal(cart) - cart[k].item.price
  {
    CartTotalSplice(cart, k, []);
    assert cart[..k] + [] + cart[k + 1..] == cart[..k] + cart[k + 1..];
    assert LineTotal(cart[k]) == cart[k].item.price;
  }

  lemma LoseOneUnitTotal(cart: seq<CartLine>, k: nat)
    requires k < |cart|
    ensures CartTotal(cart[..k] + [cart[k].(quantity := cart[k].quantity - 1)] + cart[k + 1..])
            == CartTotal(cart) - cart[k].item.price
  {
    var line := cart[k];
    var y := CartLine(line.item, line.quantity - 1);
    assert y == cart[k].(quantity := cart[k].quantity - 1);
    CartTotalReplace(cart, k, y);
    OneUnitLess(line);
  }

  // ----- checkout -----

  /** The characters JavaScript's `String.prototype.trim` removes: white space and line terminators */
  predicate IsJsSpace(c: char) {
    c == '\t' || c == '\n' || c == '\U{000B}' || c == '\U{000C}' || c == '\r' || c == ' '
    || c == '\U{00A0}' || c == '\U{1680}' || ('\U{2000}' <= c <= '\U{200A}')
    || c == '\U{2028}' || c == '\U{2029}' || c == '\U{202F}' || c == '\U{205F}'
    || c == '\U{3000}' || c == '\U{FEFF}'
  }

  function TrimStart(s: string): (r: string)
    ensures |r| <= |s| && r == s[|s| - |r|..]
    ensures forall k :: 0 <= k < |s| - |r| ==> IsJsSpace(s[k])
    ensures r == [] || !IsJsSpace(r[0])
  {
    if s != [] && IsJsSpace(s[0]) then
      var r := TrimStart(s[1..]);
      assert forall k :: 1 <= k < |s| - |r| ==> s[k] == s[1..][k - 1];
      r
    else s
  }

  function TrimEnd(s: string): (r: string)
    ensures |r| <= |s| && r == s[..|r|]
    ensures forall k :: |r| <= k < |s| ==> IsJsSpace(s[k])
    ensures r == [] || !IsJsSpace(r[|r| - 1])
  {
    if s != [] && IsJsSpace(s[|s| - 1]) then
      var r := TrimEnd(s[..|s| - 1]);
      assert forall k :: |r| <= k < |s| - 1 ==> s[k] == s[..|s| - 1][k];
      r
    else s
  }

  /**
   * `trim`: the name without leading or trailing white space; empty exactly
   * when the name is nothing but white space.
   */
  function Trim(s: string): (r: string)
    ensures r == [] || (!IsJsSpace(r[0]) && !IsJsSpace(r[|r| - 1]))
    ensures r == [] <==> forall k :: 0 <= k < |s| ==> IsJsSpace(s[k])
    ensures |r| <= |s|
  {
    TrimmedEmpty(s);
    TrimEnd(TrimStart(s))
  }

  lemma TrimmedEmpty(s: string)
    ensures TrimEnd(TrimStart(s)) == [] <==> forall k :: 0 <= k < |s| ==> IsJsSpace(s[k])
  {
    var t := TrimStart(s);
    var r := TrimEnd(t);
    if r == [] {
      assert t == [];
    } else {
      assert r[0] == t[0];
      assert t[0] == s[|s| - |t|];
    }
  }

  /** Trimming twice is trimming once */
  lemma TrimIdempotent(s: string)
    ensures Trim(Trim(s)) == Trim(s)
  {
    var r := Trim(s);
    assert TrimStart(r) == r;
    assert TrimEnd(r) == r;
  }

  /** The order lines of the request: product id, name, quantity and price of each cart line */
  function PayloadItems(cart: seq<CartLine>): (r: seq<RequestItem>)
    ensures |r| == |cart|
    ensures forall i :: 0 <= i < |cart| ==>
              r[i] == RequestItem(cart[i].item.id, cart[i].item.name, cart[i].quantity, cart[i].item.price)
  {
    if cart == [] then []
    else [RequestItem(cart[0].item.id, cart[0].item.name, cart[0].quantity, cart[0].item.price)]
         + PayloadItems(cart[1..])
  }

  /**
   * `handleCheckout`: nothing is sent for an empty cart; otherwise the
   * request names the trimmed customer, or the walk-in customer when that
   * is empty, pays cash, carries the cart total and one item per line.
   */
  function Checkout(cart: seq<CartLine>, customerName: string): (r: Option<OrderRequest>)
    ensures r.None? <==> cart == []
    ensures r.Some? ==> r.value.customerName != ""
    ensures r.Some? ==> r.value.customerName == if Trim(customerName) == "" then WalkInCustomer else Trim(customerName)
    ensures r.Some? ==> r.value.paymentMethod == CashPayment && r.value.totalAmount == CartTotal(cart)
    ensures r.Some? ==> r.value.items == PayloadItems(cart)
    ensures r.Some? ==> r.value.discordUserId == None && r.value.discordChannelId == None
  {
    if cart == [] then None
    else
      var name := Trim(customerName);
      Some(OrderRequest(if name == "" then WalkInCustomer else name, PayloadItems(cart),
                        CartTotal(cart), CashPayment, None, None))
  }

  function RequestTotal(items: seq<RequestItem>): real {
    if items == [] then 0.0 else items[0].price * items[0].quantity as real + RequestTotal(items[1..])
  }

  function OrderItemsTotal(items: seq<OrderItem>): real {
    if items == [] then 0.0 else items[0].priceAtTime * items[0].quantity as real + OrderItemsTotal(items[1..])
  }

  lemma {:induction false} PayloadTotal(cart: seq<CartLine>)
    ensures RequestTotal(PayloadItems(cart)) == CartTotal(cart)
  {
    if cart != [] {
      PayloadTotal(cart[1..]);
      assert PayloadItems(cart)[1..] == PayloadItems(cart[1..]);
    }
  }

  lemma {:induction false} SnapshotTotal(items: seq<RequestItem>)
    ensures OrderItemsTotal(Snapshot(items)) == RequestTotal(items)
  {
    if items != [] {
      SnapshotTotal(items[1..]);
      assert Snapshot(items)[1..] == Snapshot(items[1..]);
    }
  }

  /**
   * The order the backend stores for a checkout: Pending, under the name
   * the cart sent (the backend's default customer is never used), with one
   * line per cart line whose prices times quantities add up to the stored total.
   */
  lemma CheckoutCreatesOrder(cart: seq<CartLine>, customerName: string, id: nat, now: Instant)
    requires cart != []
    ensures var req := Checkout(cart, customerName).value;
            var o := NewOrder(id, req, now);
            o.status == Pending && o.customerName == req.customerName && o.paymentMethod == CashPayment
            && |o.items| == |cart|
            && (forall i :: 0 <= i < |cart| ==>
                  o.items[i] == OrderItem(cart[i].item.id, cart[i].item.name, cart[i].quantity, cart[i].item.price))
            && OrderItemsTotal(o.items) == o.totalAmount == CartTotal(cart)
  {
    var req := Checkout(cart, customerName).value;
    PayloadTotal(cart);
    SnapshotTotal(req.items);
  }
}
