/** The header's cart button (src/components/common/molecules/CartButton.tsx):
    the badge, the dropdown and its navigation, over a cart given as a list.
    Prices are held in cents, so the sum is exact and `toFixed(2)` is a
    matter of placing the decimal point. */
module CartButton {
  import opened Wrappers
  import Seqs
  import Text

  datatype CartItem = CartItem(id: string, title: string, priceCents: nat, image: string)

  /** `mockCartItems`: $29.99 and $49.99. */
  const MockCartItems: seq<CartItem> := [
    CartItem("1", "Introduction to React", 2999, "/public/mockups/mock1.jpg"),
    CartItem("2", "Advanced TypeScript", 4999, "/public/mockups/mock2.jpg")
  ]

  function PriceOf(item: CartItem): int {
    item.priceCents
  }

  /** The sum of the prices of the items in the cart. */
  function Subtotal(items: seq<CartItem>): (cents: nat)
    ensures forall i :: 0 <= i < |items| ==> items[i].priceCents <= cents
  {
    Seqs.TermAtMostSum(items, PriceOf);
    Seqs.SumBy(items, PriceOf)
  }

  /** Adding an item to the cart raises the subtotal by exactly its price. */
  lemma SubtotalAdd(items: seq<CartItem>, item: CartItem)
    ensures Subtotal(items + [item]) == Subtotal(items) + item.priceCents
  {
    assert (items + [item])[..|items|] == items;
  }

  /** The two mock courses come to $79.98. */
  lemma MockSubtotal()
    ensures Subtotal(MockCartItems) == 7998
    ensures FormatCents(Subtotal(MockCartItems)) == "$79.98"
  {
    SubtotalAdd([MockCartItems[0]], MockCartItems[1]);
    SubtotalAdd([], MockCartItems[0]);
    assert MockCartItems == [MockCartItems[0]] + [MockCartItems[1]];
    assert [MockCartItems[0]] == [] + [MockCartItems[0]];
    assert Text.NatToString(79) == "79" by {
      assert Text.NatToString(7) == "7";
    }
  }

  /** The two decimals of an amount of cents. */
  function Decimals(cents: nat): (d: string)
    ensures |d| == 2 && Text.IsDigit(d[0]) && Text.IsDigit(d[1])
    ensures d[0] as int - '0' as int == cents % 100 / 10 && d[1] as int - '0' as int == cents % 10
  {
    var digits := TwoDigits(cents);
    [Text.DigitChar(digits.0), Text.DigitChar(digits.1)]
  }

  /** The tens and units digits of the cents. */
  function TwoDigits(cents: nat): (r: (nat, nat))
    ensures r.0 < 10 && r.1 < 10
    ensures r.0 == cents % 100 / 10 && r.1 == cents % 10
    ensures 10 * r.0 + r.1 == cents % 100
  {
    var c := cents % 100;
    (c / 10, c % 10)
  }

  /** A dollar sign, the whole dollars, a point and exactly two digits of
      cents. */
  function FormatCents(cents: nat): (r: string)
    ensures |r| >= 5 && r[0] == '$' && r[|r| - 3] == '.'
    ensures forall i :: 1 <= i < |r| && i != |r| - 3 ==> Text.IsDigit(r[i])
  {
    "$" + Text.NatToString(cents / 100) + "." + Decimals(cents)
  }

  /** The displayed amount reads back as the amount: `parseInt` of the whole
      part gives the dollars and of the two decimals the cents. */
  lemma FormatCentsReadsBack(cents: nat, r: string)
    requires r == FormatCents(cents)
    ensures Text.ParseInt(r[1..|r| - 3]) == Some(cents / 100)
    ensures Text.ParseInt(r[|r| - 2..]) == Some(cents % 100)
  {
    var whole := Text.NatToString(cents / 100);
    DollarsParse(cents / 100);
    DecimalsParse(cents);
    AmountParts(r, whole, Decimals(cents), cents / 100, cents % 100);
  }

  lemma AmountParts(r: string, whole: string, frac: string, dollars: int, c: int)
    requires |frac| == 2 && r == "$" + whole + "." + frac
    requires Text.ParseInt(whole) == Some(dollars) && Text.ParseInt(frac) == Some(c)
    ensures Text.ParseInt(r[1..|r| - 3]) == Some(dollars) && Text.ParseInt(r[|r| - 2..]) == Some(c)
  {
    AmountSlices(whole, frac);
  }

  lemma AmountSlices(whole: string, frac: string)
    requires |frac| == 2
    ensures var r := "$" + whole + "." + frac;
            r[1..|r| - 3] == whole && r[|r| - 2..] == frac
  {
  }

  lemma DollarsParse(n: nat)
    ensures Text.ParseInt(Text.NatToString(n)) == Some(n)
  {
    Text.ParseIntToString(n);
    assert Text.IntToString(n) == Text.NatToString(n);
  }

  lemma DecimalsParse(cents: nat)
    ensures Text.ParseInt(Decimals(cents)) == Some(cents % 100)
  {
    var digits := TwoDigits(cents);
    TwoDigitsParse(Decimals(cents), digits.0, digits.1);
  }

  /** Two digits read back as their value. */
  lemma TwoDigitsParse(s: string, d1: nat, d2: nat)
    requires |s| == 2 && Text.IsDigit(s[0]) && Text.IsDigit(s[1])
    requires s[0] as int - '0' as int == d1 && s[1] as int - '0' as int == d2
    ensures Text.ParseInt(s) == Some(10 * d1 + d2)
  {
    Text.ParseIntUnsigned(s);
    assert s[..1] == [s[0]];
    assert [s[0]][..0] == [];
    assert Text.DigitsValue([s[0]]) == d1;
    assert Text.DigitsValue(s) == 10 * d1 + d2;
  }

  // ---------------------------------------------------------------------
  // The button and its dropdown
  // ---------------------------------------------------------------------

  /** The badge on the icon: the number of items, hidden for an empty cart. */
  function Badge(items: seq<CartItem>): (b: Option<nat>)
    ensures b.Some? <==> |items| > 0
    ensures b.Some? ==> b.value == |items|
  {
    if |items| > 0 then Some(|items|) else None
  }

  /** The buttons of the open dropdown. */
  datatype CartAction = Checkout | ViewCart | BrowseCourses

  /** A non-empty cart offers checkout and the cart page; an empty one offers
      browsing the catalogue. */
  function Actions(items: seq<CartItem>): (acts: seq<CartAction>)
    ensures BrowseCourses in acts <==> |items| == 0
    ensures Checkout in acts <==> |items| > 0
  {
    if |items| > 0 then [Checkout, ViewCart] else [BrowseCourses]
  }

  /** The route each dropdown button navigates to. */
  function ActionRoute(a: CartAction): string {
    match a
    case Checkout => "/checkout"
    case ViewCart => "/cart"
    case BrowseCourses => "/courses"
  }

  /** The result of one interaction: whether the dropdown is open and where
      the page navigated, if anywhere. */
  datatype CartOutcome = CartOutcome(isOpen: bool, route: Option<string>)

  /** `toggleCart`. */
  function ToggleCart(isOpen: bool): (o: CartOutcome)
    ensures o.isOpen != isOpen && o.route.None?
  {
    CartOutcome(!isOpen, None)
  }

  /** Each dropdown button closes the dropdown and navigates. */
  function Press(a: CartAction): (o: CartOutcome)
    ensures !o.isOpen && o.route.Some?
    ensures o.route.value == ActionRoute(a)
  {
    CartOutcome(false, Some(ActionRoute(a)))
  }

  /** A mouse press while open: outside the button and dropdown closes it;
      while closed no listener is installed. */
  function MouseDown(isOpen: bool, insideCart: bool): (o: CartOutcome)
    ensures o.isOpen <==> isOpen && insideCart
    ensures o.route.None?
  {
    CartOutcome(isOpen && insideCart, None)
  }

  /** The three buttons lead to three different pages. */
  lemma ActionRoutesDistinct(a: CartAction, b: CartAction)
    ensures Press(a).route == Press(b).route <==> a == b
  {
  }
}
