/**
 * How the controllers render an order's comma-separated product ids for people: each id becomes
 * the product's name (optionally with its stock), a placeholder for an unknown id, or a note
 * for a token that is not a number; the pieces are joined with ", ".
 */
module ProductListText {
  import opened Wrappers
  import opened JavaText
  import opened Products
  import opened ProductRepository

  const NoProducts: string := "No products"

  /** The text one id token contributes. */
  function Segment(ps: seq<Product>, token: string, withStock: bool): string
  {
    match ParseLong(Trim(token))
    case None => "Invalid Product ID: " + Trim(token)
    case Some(id) =>
      match FindById(ps, id)
      case None => "Unknown Product (ID: " + IntText(id) + ")"
      case Some(p) => if withStock then p.name + " (Stock: " + IntText(StockOrZero(p)) + ")" else p.name
  }

  function Segments(ps: seq<Product>, tokens: seq<string>, withStock: bool): (r: seq<string>)
    ensures |r| == |tokens|
    ensures forall i :: 0 <= i < |tokens| ==> r[i] == Segment(ps, tokens[i], withStock)
  {
    seq(|tokens|, i requires 0 <= i < |tokens| => Segment(ps, tokens[i], withStock))
  }

  /** The parts with ", " between neighbours and nothing after the last. */
  function JoinComma(parts: seq<string>): string
  {
    if parts == [] then ""
    else if |parts| == 1 then parts[0]
    else JoinComma(parts[..|parts| - 1]) + ", " + parts[|parts| - 1]
  }

  lemma JoinCommaStep(parts: seq<string>, i: nat)
    requires i < |parts|
    ensures i == 0 ==> JoinComma(parts[..i + 1]) == parts[0]
    ensures i > 0 ==> JoinComma(parts[..i + 1]) == JoinComma(parts[..i]) + ", " + parts[i]
  {
    assert parts[..i + 1][..i] == parts[..i];
  }

  /**
   * `convertProductIdsToNames` and, when `withStock`, `convertProductIdsToNamesWithStock`:
   * `"No products"` for a missing or blank list, otherwise one segment per token of `split(",")`.
   */
  function ProductList(ps: seq<Product>, productIds: Option<string>, withStock: bool): string
  {
    if IsNullOrBlank(productIds) then NoProducts
    else JoinComma(Segments(ps, Split(productIds.value, ','), withStock))
  }

  /** What the builder holds after `i` rounds of the loop: the first `i` parts, and ", " unless the last part is in. */
  function Built(parts: seq<string>, i: nat): string
    requires i <= |parts|
  {
    if i == 0 then "" else if i < |parts| then JoinComma(parts[..i]) + ", " else JoinComma(parts[..i])
  }

  lemma BuiltStep(parts: seq<string>, i: nat)
    requires i < |parts|
    ensures Built(parts, i + 1) == Built(parts, i) + parts[i] + (if i < |parts| - 1 then ", " else "")
  {
    JoinCommaStep(parts, i);
  }

  /** The loop that builds the text with a `StringBuilder`. */
  method RenderProductList(ps: seq<Product>, productIds: Option<string>, withStock: bool) returns (text: string)
    ensures text == ProductList(ps, productIds, withStock)
  {
    if productIds.None? || IsBlank(productIds.value) {
      return NoProducts;
    }
    var ids := Split(productIds.value, ',');
    ghost var segs := Segments(ps, ids, withStock);
    text := "";
    for i := 0 to |ids|
      invariant text == Built(segs, i)
    {
      var piece := Segment(ps, ids[i], withStock);
      BuiltStep(segs, i);
      text := text + piece;
      if i < |ids| - 1 {
        text := text + ", ";
      }
    }
    assert segs[..|segs|] == segs;
  }

  /** A stored product's own id renders as its name (with its stock, if asked). */
  lemma StoredIdRendersName(ps: seq<Product>, p: Product, withStock: bool)
    requires FindById(ps, p.id) == Some(p)
    requires MinInt64 <= p.id <= MaxInt64
    ensures ProductList(ps, Some(IntText(p.id)), withStock)
         == if withStock then p.name + " (Stock: " + IntText(StockOrZero(p)) + ")" else p.name
  {
    var s := IntText(p.id);
    ParseLongOfText(p.id);
    NotBlankNoComma(p.id);
    assert Trim(s) == s;
    assert Split(s, ',') == [s];
  }

  /** An id nobody stocks renders as a placeholder naming the id. */
  lemma UnknownIdRendersPlaceholder(ps: seq<Product>, id: int, withStock: bool)
    requires FindById(ps, id).None?
    requires MinInt64 <= id <= MaxInt64
    ensures ProductList(ps, Some(IntText(id)), withStock) == "Unknown Product (ID: " + IntText(id) + ")"
  {
    ParseLongOfText(id);
    NotBlankNoComma(id);
    assert Split(IntText(id), ',') == [IntText(id)];
  }
}
