/** The product grid of the market page
    (emporia-UI/src/components/pages/MarketPage.tsx): the category filter
    driven by the select box, and the add-to-cart button. */
module Market {
  import opened Common

  datatype MarketProduct = MarketProduct(
    id: int, name: string, description: string, price: real,
    image: string, categoryId: int, stock: int)

  /** The characters `parseInt` skips before the number: the white space and
      line terminators of JavaScript. */
  predicate IsJsSpace(c: char)
  {
    c in {'\t', '\n', '\U{B}', '\U{C}', '\r', ' ', '\U{A0}', '\U{1680}',
          '\U{2000}', '\U{2001}', '\U{2002}', '\U{2003}', '\U{2004}', '\U{2005}',
          '\U{2006}', '\U{2007}', '\U{2008}', '\U{2009}', '\U{200A}', '\U{2028}',
          '\U{2029}', '\U{202F}', '\U{205F}', '\U{3000}', '\U{FEFF}'}
  }

  function TrimStart(s: string): (r: string)
    ensures |r| <= |s| && r == s[|s| - |r|..]
    ensures r == [] || !IsJsSpace(r[0])
  {
    if s != [] && IsJsSpace(s[0]) then TrimStart(s[1..]) else s
  }

  predicate IsHexDigit(c: char)
  {
    IsDigit(c) || 'a' <= c <= 'f' || 'A' <= c <= 'F'
  }

  function DigitValue(c: char): nat
    requires IsHexDigit(c)
  {
    if IsDigit(c) then c as int - '0' as int
    else if 'a' <= c <= 'f' then c as int - 'a' as int + 10
    else c as int - 'A' as int + 10
  }

  predicate IsRadixDigit(c: char, hex: bool)
  {
    if hex then IsHexDigit(c) else IsDigit(c)
  }

  /** How many radix digits `s` starts with. */
  function DigitRun(s: string, hex: bool): (n: nat)
    ensures n <= |s|
    ensures forall i :: 0 <= i < n ==> IsRadixDigit(s[i], hex)
    ensures n < |s| ==> !IsRadixDigit(s[n], hex)
  {
    if s != [] && IsRadixDigit(s[0], hex) then 1 + DigitRun(s[1..], hex) else 0
  }

  /** The value of a run of radix digits, most significant first. */
  function RunValue(s: string, hex: bool): nat
    requires forall i :: 0 <= i < |s| ==> IsRadixDigit(s[i], hex)
  {
    if s == [] then 0
    else
      var last := s[|s| - 1];
      assert IsRadixDigit(last, hex);
      RunValue(s[..|s| - 1], hex) * (if hex then 16 else 10) + DigitValue(last)
  }

  /** The digits after the sign: a `0x`/`0X` prefix switches to base 16,
      and the longest run of digits that follows is the value; `None` when
      that run is empty. */
  function ParseUnsigned(u: string): Option<nat>
  {
    var hex := |u| >= 2 && u[0] == '0' && (u[1] == 'x' || u[1] == 'X');
    var v := if hex then u[2..] else u;
    var n := DigitRun(v, hex);
    if n == 0 then None else Some(RunValue(v[..n], hex))
  }

  /** JavaScript's `parseInt(s)` with no radix: leading white space is
      skipped and one sign is read before the digits; `None` stands for
      `NaN`. */
  function ParseInt(s: string): Option<int>
  {
    var t := TrimStart(s);
    if t != [] && t[0] == '-' then
      match ParseUnsigned(t[1..])
      case None => None
      case Some(v) => Some(-(v as int))
    else if t != [] && t[0] == '+' then
      match ParseUnsigned(t[1..])
      case None => None
      case Some(v) => Some(v)
    else
      match ParseUnsigned(t)
      case None => None
      case Some(v) => Some(v)
  }

  /** `products.filter(p => p.category_id === n)` for a parsed selection:
      a `NaN` selection equals no number. */
  function InCategory(products: seq<MarketProduct>, n: Option<int>): seq<MarketProduct>
  {
    if products == [] then []
    else
      (if n.Some? && products[0].categoryId == n.value then [products[0]] else [])
      + InCategory(products[1..], n)
  }

  /** `filteredProducts`: the whole list for the selection `"all"`, else the
      products of the parsed category, in their original order. */
  function FilterProducts(products: seq<MarketProduct>, selected: string): seq<MarketProduct>
  {
    if selected == "all" then products else InCategory(products, ParseInt(selected))
  }

  /** Membership: a product is kept exactly when it is in the input and its
      category is the parsed selection. */
  lemma {:induction false} InCategoryMembers(products: seq<MarketProduct>, n: Option<int>,
                                             p: MarketProduct)
    ensures p in InCategory(products, n) <==>
              p in products && n.Some? && p.categoryId == n.value
  {
    if products != [] {
      InCategoryMembers(products[1..], n, p);
      assert products == [products[0]] + products[1..];
    }
  }

  /** The filter never lengthens the list. */
  lemma {:induction false} InCategoryLength(products: seq<MarketProduct>, n: Option<int>)
    ensures |InCategory(products, n)| <= |products|
  {
    if products != [] {
      InCategoryLength(products[1..], n);
    }
  }

  /** Filtering a concatenation filters each part: the relative order of the
      kept products is that of the input. */
  lemma {:induction false} InCategoryAppend(a: seq<MarketProduct>, b: seq<MarketProduct>,
                                            n: Option<int>)
    ensures InCategory(a + b, n) == InCategory(a, n) + InCategory(b, n)
  {
    if a != [] {
      assert (a + b)[1..] == a[1..] + b;
      InCategoryAppend(a[1..], b, n);
    } else {
      assert a + b == b;
    }
  }

  /** A `NaN` selection matches nothing. */
  lemma {:induction false} NaNMatchesNothing(products: seq<MarketProduct>)
    ensures InCategory(products, None) == []
  {
    if products != [] {
      NaNMatchesNothing(products[1..]);
    }
  }

  /** Every product of a list whose products all share the selected category
      is kept. */
  lemma {:induction false} InCategoryKeepsAll(products: seq<MarketProduct>, n: int)
    requires forall i :: 0 <= i < |products| ==> products[i].categoryId == n
    ensures InCategory(products, Some(n)) == products
  {
    if products != [] {
      InCategoryKeepsAll(products[1..], n);
      assert products == [products[0]] + products[1..];
    }
  }

  lemma FilterAll(products: seq<MarketProduct>)
    ensures FilterProducts(products, "all") == products
  {
  }

  /** A selection other than `"all"` keeps exactly the products of its parsed
      category, never more than there were, and none when it is `NaN`. */
  lemma FilterSelection(products: seq<MarketProduct>, selected: string, p: MarketProduct)
    requires selected != "all"
    ensures p in FilterProducts(products, selected) <==>
              p in products && ParseInt(selected) == Some(p.categoryId)
    ensures |FilterProducts(products, selected)| <= |products|
    ensures ParseInt(selected) == None ==> FilterProducts(products, selected) == []
  {
    InCategoryMembers(products, ParseInt(selected), p);
    InCategoryLength(products, ParseInt(selected));
    if ParseInt(selected) == None {
      NaNMatchesNothing(products);
    }
  }

  lemma {:induction false} RunValueIsDecimalValue(s: string)
    requires AllDigits(s)
    ensures forall i :: 0 <= i < |s| ==> IsRadixDigit(s[i], false)
    ensures RunValue(s, false) == DecimalValue(s)
    decreases |s|
  {
    if s != [] {
      RunValueIsDecimalValue(s[..|s| - 1]);
    }
  }

  lemma {:induction false} DigitRunOfDigits(s: string)
    requires AllDigits(s)
    ensures DigitRun(s, false) == |s|
    decreases |s|
  {
    if s != [] {
      DigitRunOfDigits(s[1..]);
    }
  }

  /** A rendered natural number starts with `0` only when it is `0` itself,
      so it never carries a `0x` prefix. */
  lemma NoHexPrefix(m: nat)
    ensures var d := NatToString(m); !(|d| >= 2 && d[0] == '0')
  {
    if m >= 10 {
      var d := NatToString(m);
      LeadingDigitNonZero(m);
    }
  }

  lemma {:induction false} LeadingDigitNonZero(m: nat)
    requires m >= 1
    ensures NatToString(m)[0] != '0'
    decreases m
  {
    if m >= 10 {
      LeadingDigitNonZero(m / 10);
      NatToStringDigits(m / 10);
      assert NatToString(m)[0] == NatToString(m / 10)[0];
    }
  }

  /** `parseInt` reads the digits of a natural number back as that number. */
  lemma ParseDigits(m: nat)
    ensures ParseUnsigned(NatToString(m)) == Some(m)
  {
    var d := NatToString(m);
    DecimalValueOfNatToString(m);
    RunValueIsDecimalValue(d);
    DigitRunOfDigits(d);
    NoHexPrefix(m);
    assert d[..|d|] == d;
  }

  lemma TrimStartKeeps(s: string)
    requires s != [] && !IsJsSpace(s[0])
    ensures TrimStart(s) == s
  {
  }

  /** The select box's values are `category.id.toString()`, and `parseInt`
      reads each back as that id. */
  lemma ParseIntOfToString(n: int)
    ensures ParseInt(IntToString(n)) == Some(n)
  {
    var m := if n < 0 then -n else n;
    var d := NatToString(m);
    ParseDigits(m);
    NatToStringDigits(m);
    var s := IntToString(n);
    assert IsDigit(d[0]);
    TrimStartKeeps(s);
    if n < 0 {
      assert s[1..] == d;
    }
  }

  /** The word `"all"` is not a number. */
  lemma AllIsNaN()
    ensures ParseInt("all") == None
  {
    var s := "all";
    assert !IsJsSpace(s[0]);
    TrimStartKeeps(s);
    assert DigitRun(s, false) == 0;
  }

  /** `parseInt` skips leading white space and stops at the first
      non-digit: `" 12abc"` reads as 12. */
  lemma StopsAtNonDigit()
    ensures ParseInt(" 12abc") == Some(12)
  {
    var s := " 12abc";
    var t := "12abc";
    assert s[1..] == t;
    assert !IsJsSpace(t[0]);
    TrimStartKeeps(t);
    assert TrimStart(s) == t;
    assert DigitRun(t[2..], false) == 0;
    assert DigitRun(t, false) == 2;
    assert t[..2] == "12";
    assert "12"[..1] == "1" && "1"[..0] == [];
    assert RunValue("12", false) == 12;
  }

  /** A `0x` prefix after the sign reads hexadecimal: `"-0x1F"` is -31. */
  lemma ReadsHexPrefix()
    ensures ParseInt("-0x1F") == Some(-31)
  {
    var s := "-0x1F";
    assert !IsJsSpace(s[0]);
    TrimStartKeeps(s);
    var u := "0x1F";
    assert s[1..] == u;
    var v := "1F";
    assert u[2..] == v;
    assert DigitRun(v, true) == 2;
    assert v[..2] == v;
    assert RunValue(v, true) == 31;
  }

  /** Picking a category in the select box shows exactly that category's
      products. */
  lemma SelectCategoryShowsIt(products: seq<MarketProduct>, id: int, p: MarketProduct)
    ensures p in FilterProducts(products, IntToString(id)) <==> p in products && p.categoryId == id
  {
    ParseIntOfToString(id);
    var s := IntToString(id);
    NatToStringDigits(if id < 0 then -id else id);
    IntToStringChars(id, s[0]);
    InCategoryMembers(products, Some(id), p);
  }

  /** The add-to-cart button of a product card. */
  datatype CartButton = CartButton(disabled: bool, caption: string)

  function AddToCartButton(p: MarketProduct): (b: CartButton)
    ensures b.disabled <==> p.stock == 0
    ensures b.caption == (if p.stock == 0 then "Out of Stock" else "Add to Cart")
  {
    var soldOut := p.stock == 0;
    CartButton(soldOut, if soldOut then "Out of Stock" else "Add to Cart")
  }

  /** The label alone tells whether the button can be pressed. */
  lemma ButtonLabelMatchesState(p: MarketProduct)
    ensures AddToCartButton(p).disabled <==> AddToCartButton(p).caption == "Out of Stock"
  {
  }
}
