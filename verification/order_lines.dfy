/** An order's line collection: lookups by product code, the
    one-line-per-product invariant, and the derived order amount. */
module OrderLines {
  import opened Models
  import opened Linq

  /** `order.OrderLines ?? new List<OrderLine>()`: a null collection reads as empty. */
  function Lines(o: Order): (r: seq<OrderLine>)
    ensures o.orderLines.None? ==> r == []
    ensures o.orderLines.Some? ==> r == o.orderLines.value
  {
    o.orderLines.GetOr([])
  }

  /** The aggregate invariant: at most one line per product code. */
  predicate UniqueCodes(ls: seq<OrderLine>) {
    forall i, j :: 0 <= i < j < |ls| ==> ls[i].product.code != ls[j].product.code
  }

  /** Every line is priced in the order's currency. */
  predicate PricedIn(ls: seq<OrderLine>, c: Currency) {
    forall i :: 0 <= i < |ls| ==> ls[i].currency == c
  }

  /** `lines.Where(x => x.Product.Code == code).Count()`. */
  function CountCode(ls: seq<OrderLine>, code: string): (r: nat)
    ensures r <= |ls|
    ensures r == 0 <==> forall i :: 0 <= i < |ls| ==> ls[i].product.code != code
  {
    Count(ls, (l: OrderLine) => l.product.code == code)
  }

  /** `lines.Where(x => x.Product.Code == code).Count() > 0`. */
  function HasLine(ls: seq<OrderLine>, code: string): (r: bool)
    ensures r <==> exists i :: 0 <= i < |ls| && ls[i].product.code == code
  {
    CountCode(ls, code) > 0
  }

  /** Position of the line for `code`: the element `.Single()` and
      `.SingleOrDefault()` pick when the collection keeps its invariant. */
  function LineIndex(ls: seq<OrderLine>, code: string): (r: Option<nat>)
    ensures r.None? <==> !HasLine(ls, code)
    ensures r.Some? ==> r.value < |ls| && ls[r.value].product.code == code
    ensures r.Some? && UniqueCodes(ls) ==>
      forall i :: 0 <= i < |ls| && i != r.value ==> ls[i].product.code != code
  {
    FirstIndex(ls, (l: OrderLine) => l.product.code == code)
  }

  /** Under the invariant a product code matches at most one line, so the
      `.Single()` in Remove and the `.SingleOrDefault()` in SetQuantity
      never meet a second match. */
  lemma {:induction false} SingleMatch(ls: seq<OrderLine>, code: string)
    requires UniqueCodes(ls)
    ensures CountCode(ls, code) <= 1
  {
    if |ls| > 0 {
      var rest := ls[1..];
      assert UniqueCodes(rest) by {
        forall i, j | 0 <= i < j < |rest|
          ensures rest[i].product.code != rest[j].product.code
        {
          assert rest[i] == ls[i + 1] && rest[j] == ls[j + 1];
        }
      }
      SingleMatch(rest, code);
      if ls[0].product.code == code {
        assert !HasLine(rest, code) by {
          forall i | 0 <= i < |rest| ensures rest[i].product.code != code {
            assert rest[i] == ls[i + 1];
          }
        }
      }
    }
  }

  /** Appending a line for a product not yet present, priced in the order's
      currency, keeps both aggregate invariants. */
  lemma AppendLine(ls: seq<OrderLine>, l: OrderLine, c: Currency)
    requires !HasLine(ls, l.product.code)
    ensures UniqueCodes(ls) ==> UniqueCodes(ls + [l])
    ensures PricedIn(ls, c) && l.currency == c ==> PricedIn(ls + [l], c)
    ensures HasLine(ls + [l], l.product.code)
  {
    assert (ls + [l])[|ls|] == l;
  }

  /** Changing a line's quantity in place keeps both aggregate invariants. */
  lemma UpdateQuantity(ls: seq<OrderLine>, k: nat, q: UInt32, c: Currency)
    requires k < |ls|
    ensures UniqueCodes(ls) ==> UniqueCodes(ls[k := ls[k].(quantity := q)])
    ensures PricedIn(ls, c) ==> PricedIn(ls[k := ls[k].(quantity := q)], c)
  {
    var r := ls[k := ls[k].(quantity := q)];
    assert forall i :: 0 <= i < |ls| ==> r[i].product == ls[i].product && r[i].currency == ls[i].currency;
  }

  /** What `OrderLines.Remove(...)` leaves: the collection without the line
      for `code` (unchanged if there is none). */
  function RemoveLine(ls: seq<OrderLine>, code: string): (r: seq<OrderLine>)
    ensures !HasLine(ls, code) ==> r == ls
    ensures HasLine(ls, code) ==> |r| == |ls| - 1
    ensures forall l :: l in r ==> l in ls
    ensures UniqueCodes(ls) ==> UniqueCodes(r) && !HasLine(r, code)
    ensures UniqueCodes(ls) ==> forall l :: l in ls && l.product.code != code ==> l in r
    ensures forall c :: PricedIn(ls, c) ==> PricedIn(r, c)
  {
    match LineIndex(ls, code)
    case None => ls
    case Some(k) =>
      RemoveAt(ls, k, code);
      ls[..k] + ls[k + 1..]
  }

  /** Deleting the line at position `k` keeps the other lines in order. */
  lemma RemoveAtIndex(ls: seq<OrderLine>, k: nat)
    requires k < |ls|
    ensures |ls[..k] + ls[k + 1..]| == |ls| - 1
    ensures forall i :: 0 <= i < k ==> (ls[..k] + ls[k + 1..])[i] == ls[i]
    ensures forall i :: k < i < |ls| ==> (ls[..k] + ls[k + 1..])[i - 1] == ls[i]
  {
  }

  /** What deleting the line at position `k`, the one for `code`, keeps. */
  lemma RemoveAt(ls: seq<OrderLine>, k: nat, code: string)
    requires k < |ls| && ls[k].product.code == code
    ensures forall l :: l in ls[..k] + ls[k + 1..] ==> l in ls
    ensures forall c :: PricedIn(ls, c) ==> PricedIn(ls[..k] + ls[k + 1..], c)
    ensures UniqueCodes(ls) ==> UniqueCodes(ls[..k] + ls[k + 1..]) && !HasLine(ls[..k] + ls[k + 1..], code)
    ensures UniqueCodes(ls) ==> forall l :: l in ls && l.product.code != code ==> l in ls[..k] + ls[k + 1..]
  {
    var r := ls[..k] + ls[k + 1..];
    RemoveAtIndex(ls, k);
    if UniqueCodes(ls) {
      forall l | l in ls && l.product.code != code ensures l in r {
        var i :| 0 <= i < |ls| && ls[i] == l;
        assert r[if i < k then i else i - 1] == l;
      }
    }
  }

  /** Deleting the line just appended for an absent product gives back the
      collection it was appended to. */
  lemma RemoveAppended(ls: seq<OrderLine>, l: OrderLine)
    requires !HasLine(ls, l.product.code)
    ensures RemoveLine(ls + [l], l.product.code) == ls
  {
    assert (ls + [l])[|ls|] == l;
    assert LineIndex(ls + [l], l.product.code) == Some(|ls|);
    assert (ls + [l])[..|ls|] == ls;
  }

  /** Deleting the line for the first line's product leaves the rest. */
  lemma RemoveFirst(ls: seq<OrderLine>)
    requires |ls| > 0
    ensures RemoveLine(ls, ls[0].product.code) == ls[1..]
  {
    assert LineIndex(ls, ls[0].product.code) == Some(0);
    assert ls[..0] + ls[1..] == ls[1..];
  }

  /** The cost of one line. */
  function LineAmount(l: OrderLine): real {
    l.quantity as real * l.unitCost
  }

  /** A line with a non-negative unit cost costs nothing negative. */
  lemma LineAmountNonNegative(l: OrderLine)
    ensures l.unitCost >= 0.0 ==> LineAmount(l) >= 0.0
  {
  }

  /** Every line has a non-negative unit cost. */
  predicate NonNegativeCosts(ls: seq<OrderLine>) {
    forall i :: 0 <= i < |ls| ==> ls[i].unitCost >= 0.0
  }

  /** Sum over the lines of quantity times unit cost. */
  function Total(ls: seq<OrderLine>): (r: real)
    ensures |ls| == 0 ==> r == 0.0
    ensures |ls| == 1 ==> r == LineAmount(ls[0])
    ensures NonNegativeCosts(ls) ==> r >= 0.0
    ensures NonNegativeCosts(ls) ==> forall i :: 0 <= i < |ls| ==> LineAmount(ls[i]) <= r
  {
    if |ls| == 0 then 0.0
    else
      var rest := Total(ls[1..]);
      assert forall i :: 1 <= i < |ls| ==> ls[i] == ls[1..][i - 1];
      LineAmountNonNegative(ls[0]);
      LineAmount(ls[0]) + rest
  }

  /** The derived order amount; discount and VAT rates are not applied. */
  function OrderAmount(o: Order): (r: real)
    ensures o.orderLines.None? || o.orderLines == Some([]) ==> r == 0.0
    ensures NonNegativeCosts(Lines(o)) ==> r >= 0.0
  {
    Total(Lines(o))
  }

  lemma {:induction false} TotalAppend(ls: seq<OrderLine>, l: OrderLine)
    ensures Total(ls + [l]) == Total(ls) + LineAmount(l)
  {
    if |ls| > 0 {
      assert (ls + [l])[1..] == ls[1..] + [l];
      TotalAppend(ls[1..], l);
    } else {
      assert ls + [l] == [l];
    }
  }

  lemma {:induction false} TotalUpdate(ls: seq<OrderLine>, k: nat, l: OrderLine)
    requires k < |ls|
    ensures Total(ls[k := l]) == Total(ls) - LineAmount(ls[k]) + LineAmount(l)
  {
    if k > 0 {
      assert ls[k := l][1..] == ls[1..][k - 1 := l];
      TotalUpdate(ls[1..], k - 1, l);
    } else {
      assert ls[k := l][1..] == ls[1..];
    }
  }

  lemma {:induction false} TotalRemove(ls: seq<OrderLine>, k: nat)
    requires k < |ls|
    ensures Total(ls[..k] + ls[k + 1..]) == Total(ls) - LineAmount(ls[k])
  {
    if k > 0 {
      var rest := ls[1..];
      assert (ls[..k] + ls[k + 1..])[1..] == rest[..k - 1] + rest[k..];
      TotalRemove(rest, k - 1);
    } else {
      assert ls[..k] + ls[k + 1..] == ls[1..];
    }
  }
}
